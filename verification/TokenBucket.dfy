/**
 The two token buckets: the Redis script with its expiring keys, and the in-process bucket of the
 city API. Amounts and times are reals. The main result says what a bucket decides without
 mentioning a bucket: windows of granted tokens against capacity and refill.
 */
module TokenBucket {
  import opened Prelude

  datatype Config = Config(capacity: real, rate: real)

  datatype Bucket = Bucket(tokens: real, lastRefill: real)

  datatype Request = Request(now: real, amount: real)

  function Min(a: real, b: real): real { if a <= b then a else b }

  function Forward(from: real, to: real): real { if to >= from then to - from else 0.0 }

  /** Tokens that accrue between two times; none if the clock went back. */
  function Accrued(c: Config, from: real, to: real): real { Forward(from, to) * c.rate }

  // ---- The Redis script ----

  /** Tokens on hand at `now`; a missing key is a full bucket. */
  function Refilled(c: Config, b: Option<Bucket>, now: real): real {
    var tokens := if b.Some? then b.value.tokens else c.capacity;
    var lastRefill := if b.Some? then b.value.lastRefill else now;
    Min(c.capacity, tokens + Accrued(c, lastRefill, now))
  }

  predicate Allows(c: Config, b: Option<Bucket>, r: Request) {
    Refilled(c, b, r.now) >= r.amount
  }

  /** The hash written back: `last_refill` becomes `now` even when the clock went back. */
  function Consume(c: Config, b: Option<Bucket>, r: Request): Bucket {
    Bucket(Refilled(c, b, r.now) - (if Allows(c, b, r) then r.amount else 0.0), r.now)
  }

  /** The bucket after the first n requests of a run. */
  function After(c: Config, reqs: seq<Request>, n: nat): Option<Bucket>
    requires n <= |reqs|
  {
    if n == 0 then None else Some(Consume(c, After(c, reqs, n - 1), reqs[n - 1]))
  }

  predicate Decision(c: Config, reqs: seq<Request>, i: nat)
    requires i < |reqs|
  {
    Allows(c, After(c, reqs, i), reqs[i])
  }

  // ---- What a run grants, by windows ----

  /** Tokens granted to requests j .. i-1. */
  function Granted(c: Config, reqs: seq<Request>, j: nat, i: nat): real
    requires j <= i <= |reqs|
  {
    if i == j then 0.0
    else Granted(c, reqs, j, i - 1) + Taken(c, reqs, i - 1)
  }

  /** Time from request j to request i as the bucket sees it: steps back count as zero. */
  function Elapsed(reqs: seq<Request>, j: nat, i: nat): real
    requires j <= i < |reqs|
  {
    if i == j then 0.0 else Elapsed(reqs, j, i - 1) + Forward(reqs[i - 1].now, reqs[i].now)
  }

  /** Tokens that accrue from request j to request i. */
  function Accrual(c: Config, reqs: seq<Request>, j: nat, i: nat): real
    requires j <= i < |reqs|
  {
    if i == j then 0.0 else Accrual(c, reqs, j, i - 1) + Accrued(c, reqs[i - 1].now, reqs[i].now)
  }

  lemma Distribute(r: real, a: real, b: real)
    ensures r * (a + b) == r * a + b * r
  {
  }

  lemma {:induction false} AccrualIsRefill(c: Config, reqs: seq<Request>, j: nat, i: nat)
    requires j <= i < |reqs|
    ensures Accrual(c, reqs, j, i) == c.rate * Elapsed(reqs, j, i)
  {
    if j < i {
      AccrualIsRefill(c, reqs, j, i - 1);
      Distribute(c.rate, Elapsed(reqs, j, i - 1), Forward(reqs[i - 1].now, reqs[i].now));
    }
  }

  /** What the window from request j leaves for request i. */
  function Room(c: Config, reqs: seq<Request>, j: nat, i: nat): real
    requires j <= i < |reqs|
  {
    c.capacity + Accrual(c, reqs, j, i) - Granted(c, reqs, j, i)
  }

  function Level(c: Config, reqs: seq<Request>, i: nat): real
    requires i < |reqs|
  {
    Refilled(c, After(c, reqs, i), reqs[i].now)
  }

  /** What request i took. */
  function Taken(c: Config, reqs: seq<Request>, i: nat): real
    requires i < |reqs|
  {
    if Decision(c, reqs, i) then reqs[i].amount else 0.0
  }

  /** Every window's room moves from one request to the next as the bucket's level does before
      the cap. */
  lemma RoomStep(c: Config, reqs: seq<Request>, j: nat, i: nat)
    requires j < i < |reqs|
    ensures Room(c, reqs, j, i)
         == Room(c, reqs, j, i - 1) - Taken(c, reqs, i - 1) + Accrued(c, reqs[i - 1].now, reqs[i].now)
  {
  }

  lemma LevelStep(c: Config, reqs: seq<Request>, i: nat)
    requires 0 < i < |reqs|
    ensures Level(c, reqs, i) == Min(c.capacity,
              Level(c, reqs, i - 1) - Taken(c, reqs, i - 1) + Accrued(c, reqs[i - 1].now, reqs[i].now))
  {
  }

  /** The level is the least room over all windows ending at request i. */
  lemma {:induction false} LevelIsLeastRoom(c: Config, reqs: seq<Request>, i: nat)
    requires i < |reqs|
    ensures forall j :: 0 <= j <= i ==> Level(c, reqs, i) <= Room(c, reqs, j, i)
    ensures exists j :: 0 <= j <= i && Level(c, reqs, i) == Room(c, reqs, j, i)
  {
    assert Room(c, reqs, i, i) == c.capacity;
    if i > 0 {
      LevelIsLeastRoom(c, reqs, i - 1);
      LevelStep(c, reqs, i);
      forall j | 0 <= j <= i
        ensures Level(c, reqs, i) <= Room(c, reqs, j, i)
      {
        if j < i {
          RoomStep(c, reqs, j, i);
        }
      }
      var j :| 0 <= j <= i - 1 && Level(c, reqs, i - 1) == Room(c, reqs, j, i - 1);
      RoomStep(c, reqs, j, i);
    } else {
      assert Level(c, reqs, 0) == Room(c, reqs, 0, 0);
    }
  }

  /** The tokens granted since request j plus request i fit into the capacity plus the refill. */
  predicate Fits(c: Config, reqs: seq<Request>, j: nat, i: nat)
    requires j <= i < |reqs|
  {
    Granted(c, reqs, j, i) + reqs[i].amount <= c.capacity + c.rate * Elapsed(reqs, j, i)
  }

  lemma FitsIffRoom(c: Config, reqs: seq<Request>, j: nat, i: nat)
    requires j <= i < |reqs|
    ensures Fits(c, reqs, j, i) <==> reqs[i].amount <= Room(c, reqs, j, i)
  {
    AccrualIsRefill(c, reqs, j, i);
  }

  /** Exact characterisation, for every run: request i is allowed if and only if it fits into every
      window that starts at an earlier request or at this one. */
  lemma AllowedIffWindowsFit(c: Config, reqs: seq<Request>, i: nat)
    requires i < |reqs|
    ensures Decision(c, reqs, i) <==> forall j :: 0 <= j <= i ==> Fits(c, reqs, j, i)
  {
    LevelIsLeastRoom(c, reqs, i);
    if Decision(c, reqs, i) {
      forall j | 0 <= j <= i
        ensures Fits(c, reqs, j, i)
      {
        FitsIffRoom(c, reqs, j, i);
      }
    } else {
      var j :| 0 <= j <= i && Level(c, reqs, i) == Room(c, reqs, j, i);
      FitsIffRoom(c, reqs, j, i);
    }
  }

  predicate Nondecreasing(reqs: seq<Request>) {
    forall i, j :: 0 <= i <= j < |reqs| ==> reqs[i].now <= reqs[j].now
  }

  /** On a clock that does not go back the bucket's time is the wall-clock time. */
  lemma {:induction false} ElapsedIsWallClock(reqs: seq<Request>, j: nat, i: nat)
    requires j <= i < |reqs| && Nondecreasing(reqs)
    ensures Elapsed(reqs, j, i) == reqs[i].now - reqs[j].now
  {
    if j < i {
      ElapsedIsWallClock(reqs, j, i - 1);
    }
  }

  predicate FitsWallClock(c: Config, reqs: seq<Request>, j: nat, i: nat)
    requires j <= i < |reqs|
  {
    Granted(c, reqs, j, i) + reqs[i].amount <= c.capacity + c.rate * (reqs[i].now - reqs[j].now)
  }

  /** The rate limit as its users read it: on a nondecreasing clock, wall-clock windows. */
  lemma AllowedIffWallClockWindowsFit(c: Config, reqs: seq<Request>, i: nat)
    requires i < |reqs| && Nondecreasing(reqs)
    ensures Decision(c, reqs, i) <==> forall j :: 0 <= j <= i ==> FitsWallClock(c, reqs, j, i)
  {
    AllowedIffWindowsFit(c, reqs, i);
    forall j | 0 <= j <= i
      ensures Fits(c, reqs, j, i) <==> FitsWallClock(c, reqs, j, i)
    {
      WindowsAgree(c, reqs, j, i);
    }
  }

  lemma WindowsAgree(c: Config, reqs: seq<Request>, j: nat, i: nat)
    requires j <= i < |reqs| && Nondecreasing(reqs)
    ensures Fits(c, reqs, j, i) <==> FitsWallClock(c, reqs, j, i)
  {
    ElapsedIsWallClock(reqs, j, i);
    assert c.rate * Elapsed(reqs, j, i) == c.rate * (reqs[i].now - reqs[j].now);
  }

  /** A clock that goes back and forward again refills twice: two tokens out of a one-token bucket
      within a window of no length. */
  lemma BackwardClockGrantsTwice()
    ensures var c := Config(1.0, 1.0);
      var reqs := [Request(10.0, 1.0), Request(0.0, 1.0), Request(10.0, 1.0)];
      && Decision(c, reqs, 0) && !Decision(c, reqs, 1) && Decision(c, reqs, 2)
      && !FitsWallClock(c, reqs, 0, 2)
  {
    var c := Config(1.0, 1.0);
    var reqs := [Request(10.0, 1.0), Request(0.0, 1.0), Request(10.0, 1.0)];
    assert After(c, reqs, 1) == Some(Bucket(0.0, 10.0));
    assert After(c, reqs, 2) == Some(Bucket(0.0, 0.0));
    assert Granted(c, reqs, 0, 1) == 1.0;
  }

  lemma {:induction false} TokensNonNegative(c: Config, reqs: seq<Request>, n: nat)
    requires n <= |reqs| && c.capacity >= 0.0 && c.rate >= 0.0
    ensures After(c, reqs, n).Some? ==> After(c, reqs, n).value.tokens >= 0.0
  {
    if n > 0 {
      TokensNonNegative(c, reqs, n - 1);
      RefilledNonNegative(c, After(c, reqs, n - 1), reqs[n - 1].now);
    }
  }

  lemma RefilledNonNegative(c: Config, b: Option<Bucket>, now: real)
    requires c.capacity >= 0.0 && c.rate >= 0.0 && (b.Some? ==> b.value.tokens >= 0.0)
    ensures 0.0 <= Refilled(c, b, now) <= c.capacity
  {
    var lastRefill := if b.Some? then b.value.lastRefill else now;
    assert Accrued(c, lastRefill, now) >= 0.0;
  }

  // ---- Key expiry ----

  /** `max(60, int(capacity / refill_rate * 2))`. */
  function Ttl(c: Config): int
    requires c.rate > 0.0
  {
    var t := (c.capacity / c.rate * 2.0).Floor;
    if t > 60 then t else 60
  }

  /** A key may only be gone once its time to live has passed since the previous request. */
  predicate ExpiryOk(c: Config, reqs: seq<Request>, gone: seq<bool>)
    requires c.rate > 0.0
  {
    && |gone| == |reqs|
    && forall i :: 0 < i < |reqs| && gone[i] ==> reqs[i].now - reqs[i - 1].now >= Ttl(c) as real
  }

  /** What request i finds in Redis when `gone[i]` says the key has expired. */
  function Found(c: Config, reqs: seq<Request>, gone: seq<bool>, i: nat): Option<Bucket>
    requires i <= |reqs| == |gone|
  {
    if i == 0 || (i < |gone| && gone[i]) then None
    else Some(Consume(c, Found(c, reqs, gone, i - 1), reqs[i - 1]))
  }

  /** The time to live is at least the time an empty bucket takes to fill. */
  lemma TtlRefills(c: Config)
    requires c.capacity >= 0.0 && c.rate > 0.0
    ensures Ttl(c) as real * c.rate >= c.capacity
  {
    var x := c.capacity / c.rate;
    assert x * c.rate == c.capacity;
    assert x >= 0.0;
    assert Ttl(c) as real >= x;
    var y := Ttl(c) as real - x;
    assert y * c.rate >= 0.0;
    assert Ttl(c) as real * c.rate == x * c.rate + y * c.rate;
  }

  /** The time to live is twice the time an empty bucket takes to fill, in whole seconds, or 60. */
  lemma TtlIs(c: Config)
    requires c.capacity >= 0.0 && c.rate > 0.0
    ensures Ttl(c) >= 60
    ensures var fill := c.capacity / c.rate;
      Ttl(c) == 60 || Ttl(c) as real <= 2.0 * fill < Ttl(c) as real + 1.0
    ensures c.capacity / c.rate >= 30.5 ==> Ttl(c) > 60
  {
    assert 2.0 * (c.capacity / c.rate) == c.capacity / c.rate * 2.0;
  }

  /** An idle bucket is full by the time it may expire, so the request sees the same level. */
  lemma ExpiredIsFull(c: Config, b: Bucket, now: real)
    requires c.capacity >= 0.0 && c.rate > 0.0 && b.tokens >= 0.0
    requires now - b.lastRefill >= Ttl(c) as real
    ensures Refilled(c, Some(b), now) == Refilled(c, None, now)
  {
    TtlRefills(c);
    var extra := now - b.lastRefill - Ttl(c) as real;
    assert extra * c.rate >= 0.0;
    assert (now - b.lastRefill) * c.rate == Ttl(c) as real * c.rate + extra * c.rate;
  }

  /** Key expiry is invisible: whatever idle keys Redis drops, every request sees the level, gets
      the decision and leaves the bucket of a run in which no key ever expires. */
  lemma {:induction false} ExpiryInvisible(c: Config, reqs: seq<Request>, gone: seq<bool>, i: nat)
    requires c.capacity >= 1.0 && c.rate > 0.0 && ExpiryOk(c, reqs, gone) && i < |reqs|
    ensures Refilled(c, Found(c, reqs, gone, i), reqs[i].now) == Level(c, reqs, i)
    ensures Allows(c, Found(c, reqs, gone, i), reqs[i]) <==> Decision(c, reqs, i)
    ensures Consume(c, Found(c, reqs, gone, i), reqs[i]) == Consume(c, After(c, reqs, i), reqs[i])
  {
    if i > 0 {
      ExpiryInvisible(c, reqs, gone, i - 1);
      if gone[i] {
        TokensNonNegative(c, reqs, i);
        ExpiredIsFull(c, After(c, reqs, i).value, reqs[i].now);
      }
    }
  }

  // ---- The in-process bucket ----

  function MemoryRefilled(c: Config, b: Option<Bucket>, now: real): real {
    var tokens := if b.Some? then b.value.tokens else c.capacity;
    var lastRefill := if b.Some? then b.value.lastRefill else now;
    Min(c.capacity, tokens + (now - lastRefill) * c.rate)
  }

  predicate MemoryAllows(c: Config, b: Option<Bucket>, now: real) {
    !(MemoryRefilled(c, b, now) < 1.0)
  }

  function MemoryConsume(c: Config, b: Option<Bucket>, now: real): Bucket {
    var tokens := MemoryRefilled(c, b, now);
    if tokens < 1.0 then Bucket(tokens, now) else Bucket(tokens - 1.0, now)
  }

  function MemoryAfter(c: Config, reqs: seq<Request>, n: nat): Option<Bucket>
    requires n <= |reqs|
  {
    if n == 0 then None else Some(MemoryConsume(c, MemoryAfter(c, reqs, n - 1), reqs[n - 1].now))
  }

  lemma MemoryStep(c: Config, b: Option<Bucket>, now: real)
    requires b.Some? ==> b.value.lastRefill <= now
    ensures MemoryRefilled(c, b, now) == Refilled(c, b, now)
    ensures MemoryConsume(c, b, now) == Consume(c, b, Request(now, 1.0))
  {
    if b.Some? {
      assert Forward(b.value.lastRefill, now) == now - b.value.lastRefill;
    }
  }

  /** On a clock that does not go back the in-process bucket decides as the Redis one does for
      single-token requests. */
  lemma {:induction false} MemoryDecidesAsRedis(c: Config, reqs: seq<Request>, i: nat)
    requires i < |reqs| && Nondecreasing(reqs)
    requires forall k :: 0 <= k < |reqs| ==> reqs[k].amount == 1.0
    ensures MemoryAfter(c, reqs, i) == After(c, reqs, i)
    ensures MemoryAllows(c, MemoryAfter(c, reqs, i), reqs[i].now) <==> Decision(c, reqs, i)
  {
    if i > 0 {
      MemoryDecidesAsRedis(c, reqs, i - 1);
      MemoryStep(c, After(c, reqs, i - 1), reqs[i - 1].now);
    }
    MemoryStep(c, After(c, reqs, i), reqs[i].now);
  }

  // ---- Many identifiers ----

  datatype Call = Call(id: string, req: Request)

  function Lookup(m: map<string, Bucket>, id: string): Option<Bucket> {
    if id in m then Some(m[id]) else None
  }

  /** The store after a run of calls for any mix of identifiers. */
  function Store(c: Config, calls: seq<Call>): map<string, Bucket> {
    if calls == [] then map[]
    else
      var m := Store(c, calls[..|calls| - 1]);
      var call := calls[|calls| - 1];
      m[call.id := Consume(c, Lookup(m, call.id), call.req)]
  }

  /** The requests of one identifier. */
  function Only(calls: seq<Call>, id: string): seq<Request> {
    if calls == [] then []
    else
      Only(calls[..|calls| - 1], id)
      + (if calls[|calls| - 1].id == id then [calls[|calls| - 1].req] else [])
  }

  lemma {:induction false} AfterPrefix(c: Config, a: seq<Request>, b: seq<Request>, n: nat)
    requires n <= |a|
    ensures After(c, a + b, n) == After(c, a, n)
  {
    if n > 0 {
      AfterPrefix(c, a, b, n - 1);
      assert (a + b)[n - 1] == a[n - 1];
    }
  }

  lemma AfterLast(c: Config, own: seq<Request>, req: Request)
    ensures After(c, own + [req], |own| + 1) == Some(Consume(c, After(c, own, |own|), req))
    ensures Decision(c, own + [req], |own|) <==> Allows(c, After(c, own, |own|), req)
  {
    AfterPrefix(c, own, [req], |own|);
    assert (own + [req])[|own|] == req;
  }

  /** Identifiers do not share tokens: each bucket is the one its own requests alone produce. */
  lemma {:induction false} IdentifiersAreIndependent(c: Config, calls: seq<Call>, id: string)
    ensures Lookup(Store(c, calls), id) == After(c, Only(calls, id), |Only(calls, id)|)
  {
    if calls != [] {
      var rest, call := calls[..|calls| - 1], calls[|calls| - 1];
      IdentifiersAreIndependent(c, rest, id);
      if call.id == id {
        AfterLast(c, Only(rest, id), call.req);
      } else {
        assert Only(calls, id) == Only(rest, id);
      }
    }
  }

  // ---- The limiter objects ----

  class TokenBucketRateLimiter {
    const config: Config
    var store: map<string, Bucket>
    ghost var calls: seq<Call>

    ghost predicate Valid()
      reads this
    {
      store == Store(config, calls)
    }

    /** Rejects a capacity below one or a refill rate that is not positive. */
    static method Create(capacity: int, rate: real) returns (r: Result<TokenBucketRateLimiter, string>)
      ensures r.Ok? <==> capacity >= 1 && rate > 0.0
      ensures r.Ok? ==> fresh(r.value) && r.value.Valid() && r.value.calls == []
      ensures r.Ok? ==> r.value.config == Config(capacity as real, rate)
    {
      if capacity < 1 {
        return Err("capacity must be >= 1");
      }
      if rate <= 0.0 {
        return Err("refill_rate must be > 0");
      }
      var limiter := new TokenBucketRateLimiter(Config(capacity as real, rate));
      r := Ok(limiter);
    }

    constructor (config: Config)
      ensures Valid() && calls == [] && this.config == config
    {
      this.config := config;
      store := map[];
      calls := [];
    }

    /** The Lua script, given what HMGET found. */
    method Script(found: Option<Bucket>, req: Request) returns (allowed: bool, bucket: Bucket, remaining: int)
      ensures allowed <==> Allows(config, found, req)
      ensures bucket == Consume(config, found, req) && remaining == bucket.tokens.Floor
    {
      var tokens := if found.Some? then found.value.tokens else config.capacity;
      var lastRefill := if found.Some? then found.value.lastRefill else req.now;
      var elapsed := Forward(lastRefill, req.now);
      var refilled := Min(config.capacity, tokens + elapsed * config.rate);
      assert refilled == Refilled(config, found, req.now);
      allowed := false;
      if refilled >= req.amount {
        refilled := refilled - req.amount;
        allowed := true;
      }
      bucket := Bucket(refilled, req.now);
      remaining := refilled.Floor;
    }

    /** `consume`: the answer depends only on the earlier requests of the same identifier, and is
        the window answer of `AllowedIffWindowsFit` for them. Without Redis the call is allowed and
        leaves no trace. */
    method ConsumeTokens(id: string, now: real, amount: int, redisUp: bool) returns (allowed: bool, remaining: int)
      requires Valid()
      modifies this
      ensures Valid() && calls == if redisUp then old(calls) + [Call(id, Request(now, amount as real))] else old(calls)
      ensures redisUp ==>
        var own := Only(old(calls), id) + [Request(now, amount as real)];
        allowed <==> Decision(config, own, |own| - 1)
      ensures redisUp ==> id in store && remaining == store[id].tokens.Floor
      ensures !redisUp ==> allowed && remaining == config.capacity.Floor && store == old(store)
    {
      if !redisUp {
        return true, config.capacity.Floor;
      }
      var req := Request(now, amount as real);
      ghost var own := Only(calls, id);
      IdentifiersAreIndependent(config, calls, id);
      AfterLast(config, own, req);
      var bucket;
      allowed, bucket, remaining := Script(Lookup(store, id), req);
      assert (calls + [Call(id, req)])[..|calls|] == calls;
      store := store[id := bucket];
      calls := calls + [Call(id, req)];
    }
  }

  class InMemoryTokenBucket {
    const config: Config
    var buckets: map<string, Bucket>

    constructor (config: Config)
      ensures this.config == config && buckets == map[]
    {
      this.config := config;
      buckets := map[];
    }

    method ConsumeOne(id: string, now: real) returns (allowed: bool)
      modifies this
      ensures allowed <==> MemoryAllows(config, old(Lookup(buckets, id)), now)
      ensures buckets == old(buckets)[id := MemoryConsume(config, old(Lookup(buckets, id)), now)]
    {
      var tokens, last := config.capacity, now;
      if id in buckets {
        tokens, last := buckets[id].tokens, buckets[id].lastRefill;
      }
      tokens := Min(config.capacity, tokens + (now - last) * config.rate);
      assert tokens == MemoryRefilled(config, Lookup(buckets, id), now);
      if tokens < 1.0 {
        buckets := buckets[id := Bucket(tokens, now)];
        return false;
      }
      buckets := buckets[id := Bucket(tokens - 1.0, now)];
      return true;
    }
  }
}
