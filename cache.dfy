/** The cache-aside middleware of src/middleware/cache.ts, with Redis as a
    map from key to (stored text, expiry time) and a logical clock.

    `cacheMiddleware(duration)` lets non-GET requests through untouched.
    For a GET it derives the key `"__express__" + (originalUrl || url)`
    and asks Redis for it. A non-empty stored text is parsed and sent as
    the response; the route handler never runs. Otherwise the handler
    runs with `res.json` wrapped so that whatever body it sends is also
    written to Redis with a time-to-live of `duration` seconds. If the
    lookup (or the parse) throws, the handler runs unwrapped and nothing
    is stored. `clearCache(pattern)` deletes the keys matching a KEYS
    pattern and swallows errors.

    The route handler is a parameter here: the reply it would send. The
    middleware is standalone: no route mounts it and no write calls
    `clearCache`. */
module Cache {
  import opened Common
  import opened Json

  const KeyPrefix: string := "__express__"

  /** `req.originalUrl || req.url`: the original URL unless it is empty. */
  function EffectiveUrl(originalUrl: string, url: string): string {
    if originalUrl != "" then originalUrl else url
  }

  /** The Redis key of a request: the raw URL, query string included and
      in the order the client wrote it. */
  function CacheKey(originalUrl: string, url: string): (r: string)
    ensures KeyPrefix <= r && r[|KeyPrefix|..] == EffectiveUrl(originalUrl, url)
  {
    KeyPrefix + EffectiveUrl(originalUrl, url)
  }

  /** Two requests share a cache entry exactly when their effective URLs
      are the same text. */
  lemma CacheKeyInjective(o1: string, u1: string, o2: string, u2: string)
    ensures CacheKey(o1, u1) == CacheKey(o2, u2) <==> EffectiveUrl(o1, u1) == EffectiveUrl(o2, u2)
  {
    var e1, e2 := EffectiveUrl(o1, u1), EffectiveUrl(o2, u2);
    if CacheKey(o1, u1) == CacheKey(o2, u2) {
      assert e1 == CacheKey(o1, u1)[|KeyPrefix|..];
      assert e2 == CacheKey(o2, u2)[|KeyPrefix|..];
    }
  }

  /** The key is not canonical: the same filters written in another order
      get another entry. */
  lemma QueryOrderMatters()
    ensures CacheKey("/api/properties?city=Lagos&minPrice=1000", "")
         != CacheKey("/api/properties?minPrice=1000&city=Lagos", "")
  {
    CacheKeyInjective("/api/properties?city=Lagos&minPrice=1000", "",
                      "/api/properties?minPrice=1000&city=Lagos", "");
    assert "/api/properties?city=Lagos&minPrice=1000"[16] != "/api/properties?minPrice=1000&city=Lagos"[16];
  }

  /** A Redis value: the stored text and the time it expires. */
  datatype Entry = Entry(payload: string, expiresAt: nat)

  type Store = map<string, Entry>

  /** `redisClient.get(key)`: the stored text while unexpired. */
  function Get(store: Store, now: nat, key: string): (r: Option<string>)
    ensures r.Some? <==> key in store && now < store[key].expiresAt
    ensures r.Some? ==> r.value == store[key].payload
  {
    if key in store && now < store[key].expiresAt then Some(store[key].payload) else None
  }

  /** `redisClient.setEx(key, duration, JSON.stringify(body))`. Redis
      refuses a time-to-live below one second. The call is not awaited;
      of a refusal the model keeps only its effect on the store, which is
      none. */
  function SetEx(store: Store, now: nat, key: string, duration: int, body: Value): (r: Store)
    ensures duration >= 1 ==> Get(r, now, key) == Some(Stringify(body))
    ensures duration < 1 ==> r == store
    ensures forall k :: k != key ==> (k in r <==> k in store) && (k in r ==> r[k] == store[k])
  {
    if duration >= 1 then store[key := Entry(Stringify(body), now + duration)] else store
  }

  datatype Request = Request(verb: string, originalUrl: string, url: string)

  /** A status and a JSON body, as sent by `res.status(..).json(..)`. */
  datatype Reply = Reply(status: nat, body: Value)

  /** Which way the middleware went. */
  datatype Path = Bypassed | Hit | Miss | Fallback

  /** What the client receives, and whether the route handler ran. */
  datatype Served = Served(reply: Reply, handlerRan: bool, path: Path)

  /** One request through `cacheMiddleware(duration)`: what is served and
      the store afterwards. `handler` is the reply the route handler
      would send; `lookupFails` says that `redisClient.get` throws. */
  function Respond(store: Store, now: nat, req: Request, duration: int, handler: Reply, lookupFails: bool)
    : (r: (Served, Store))
    ensures r.0.handlerRan <==> r.0.path != Hit
    ensures r.0.handlerRan ==> r.0.reply == handler
    ensures r.0.path == Hit ==> r.0.reply.status == 200
    ensures r.1 != store ==> r.0.path == Miss
    ensures req.verb != "GET" ==> r.0.path == Bypassed && r.1 == store
    ensures req.verb == "GET" && lookupFails ==> r.0.path == Fallback && r.1 == store
  {
    if req.verb != "GET" then (Served(handler, true, Bypassed), store)
    else if lookupFails then (Served(handler, true, Fallback), store)
    else
      var key := CacheKey(req.originalUrl, req.url);
      var cached := Get(store, now, key);
      if cached.Some? && cached.value != "" then
        match Parse(cached.value)
        case Some(v) => (Served(Reply(200, v), false, Hit), store)
        case None => (Served(handler, true, Fallback), store)
      else
        (Served(handler, true, Miss), SetEx(store, now, key, duration, handler.body))
  }

  /** A stored JSON text is served as the very value it was written
      from, without running the handler. */
  lemma HitServesStoredValue(store: Store, now: nat, req: Request, duration: int, handler: Reply, v: Value)
    requires req.verb == "GET"
    requires Get(store, now, CacheKey(req.originalUrl, req.url)) == Some(Stringify(v))
    ensures Respond(store, now, req, duration, handler, false).0 == Served(Reply(200, v), false, Hit)
    ensures Respond(store, now, req, duration, handler, false).1 == store
  {
    ParseStringify(v);
  }

  /** Cache-aside: after a miss at time `t` with a time-to-live of at
      least one second, the same URL requested at `t + dt` is served from
      the cache while `dt < duration`, with the body the handler sent on
      the miss and without running the handler again (whatever it would
      now answer). At `dt >= duration` the entry is gone and the handler
      runs again. */
  lemma MissThenHit(store: Store, t: nat, req: Request, duration: int, first: Reply,
                    dt: nat, second: Reply)
    requires req.verb == "GET"
    requires Respond(store, t, req, duration, first, false).0.path == Miss
    requires duration >= 1
    ensures var after := Respond(store, t, req, duration, first, false).1;
            var again := Respond(after, t + dt, req, duration, second, false).0;
            && (dt < duration ==> again == Served(Reply(200, first.body), false, Hit))
            && (dt >= duration ==> again.path == Miss && again.reply == second)
  {
    var key := CacheKey(req.originalUrl, req.url);
    var after := Respond(store, t, req, duration, first, false).1;
    assert after == store[key := Entry(Stringify(first.body), t + duration)];
    if dt < duration {
      HitServesStoredValue(after, t + dt, req, duration, second, first.body);
    } else {
      assert Get(after, t + dt, key).None?;
    }
  }

  /** The concrete lifetime: a body cached at time 0 for 60 seconds is
      still served at 59 and fetched afresh at 61. */
  lemma SixtySecondEntry(store: Store, req: Request, first: Reply, second: Reply)
    requires req.verb == "GET"
    requires Respond(store, 0, req, 60, first, false).0.path == Miss
    ensures var after := Respond(store, 0, req, 60, first, false).1;
            && Respond(after, 59, req, 60, second, false).0.path == Hit
            && Respond(after, 59, req, 60, second, false).0.reply.body == first.body
            && Respond(after, 61, req, 60, second, false).0.path == Miss
  {
    MissThenHit(store, 0, req, 60, first, 59, second);
    MissThenHit(store, 0, req, 60, first, 61, second);
  }

  /** An error reply is cached like any other body, and a later hit sends
      it with status 200: the status is not part of the entry. */
  lemma ErrorBodyReplayedAsOk(store: Store, t: nat, req: Request, body: Value, second: Reply)
    requires req.verb == "GET"
    requires Respond(store, t, req, 60, Reply(500, body), false).0.path == Miss
    ensures var after := Respond(store, t, req, 60, Reply(500, body), false).1;
            Respond(after, t + 1, req, 60, second, false).0.reply == Reply(200, body)
  {
    MissThenHit(store, t, req, 60, Reply(500, body), 1, second);
  }

  // ---------------------------------------------------------------------
  // clearCache

  /** The KEYS patterns the model understands: one ending in `*` matches
      every key it is a prefix of (the `*` removed); any other pattern
      matches only itself. */
  predicate GlobMatches(pattern: string, key: string)
    ensures pattern == key ==> GlobMatches(pattern, key)
  {
    if |pattern| > 0 && pattern[|pattern| - 1] == '*' then pattern[..|pattern| - 1] <= key
    else pattern == key
  }

  /** `redisClient.del(await redisClient.keys(pattern))`. */
  function Clear(store: Store, pattern: string): (r: Store)
    ensures forall k :: k in r <==> k in store && !GlobMatches(pattern, k)
    ensures forall k :: k in r ==> r[k] == store[k]
  {
    map k | k in store && !GlobMatches(pattern, k) :: store[k]
  }

  /** Clearing twice is clearing once. */
  lemma ClearIdempotent(store: Store, pattern: string)
    ensures Clear(Clear(store, pattern), pattern) == Clear(store, pattern)
  {
  }

  /** With no key matching, clearing changes nothing. */
  lemma ClearWithoutMatchIsNoop(store: Store, pattern: string)
    requires forall k :: k in store ==> !GlobMatches(pattern, k)
    ensures Clear(store, pattern) == store
  {
  }

  /** A prefix pattern built from the key prefix and a path clears exactly
      the cached pages whose URL starts with that path. */
  lemma PrefixPatternSelectsPages(path: string, originalUrl: string, url: string)
    ensures GlobMatches(KeyPrefix + path + "*", CacheKey(originalUrl, url))
            <==> path <= EffectiveUrl(originalUrl, url)
  {
    var pattern := KeyPrefix + path + "*";
    assert pattern[..|pattern| - 1] == KeyPrefix + path;
    PrefixCancel(KeyPrefix, path, EffectiveUrl(originalUrl, url));
  }

  /** A common prefix does not change whether one text starts another. */
  lemma PrefixCancel(p: string, a: string, b: string)
    ensures p + a <= p + b <==> a <= b
  {
    if p + a <= p + b {
      assert forall i :: 0 <= i < |a| ==> a[i] == (p + a)[|p| + i] && b[i] == (p + b)[|p| + i];
    }
    if a <= b {
      assert p + b == p + a + b[|a|..];
    }
  }

  /** The Redis instance the middleware talks to, with its clock. */
  class RedisCache {
    var entries: Store
    var now: nat

    constructor ()
      ensures entries == map[] && now == 0
    {
      entries := map[];
      now := 0;
    }

    /** Time passes; entries are not touched, only their liveness. */
    method Advance(dt: nat)
      modifies this
      ensures now == old(now) + dt && entries == old(entries)
    {
      now := now + dt;
    }

    /** One request through the middleware. */
    method Handle(req: Request, duration: int, handler: Reply, lookupFails: bool) returns (served: Served)
      modifies this
      ensures now == old(now)
      ensures (served, entries) == Respond(old(entries), now, req, duration, handler, lookupFails)
    {
      if req.verb != "GET" {
        return Served(handler, true, Bypassed);
      }
      if lookupFails {
        return Served(handler, true, Fallback);
      }
      var key := CacheKey(req.originalUrl, req.url);
      var cached := Get(entries, now, key);
      if cached.Some? && cached.value != "" {
        var data := Parse(cached.value);
        if data.Some? {
          return Served(Reply(200, data.value), false, Hit);
        }
        return Served(handler, true, Fallback);
      }
      entries := SetEx(entries, now, key, duration, handler.body);
      return Served(handler, true, Miss);
    }

    /** `clearCache(pattern)`; `fails` says that KEYS or DEL throws, which
        is logged and swallowed. */
    method ClearCache(pattern: string, fails: bool)
      modifies this
      ensures now == old(now)
      ensures fails ==> entries == old(entries)
      ensures !fails ==> entries == Clear(old(entries), pattern)
    {
      if fails {
        return;
      }
      ghost var cleared := Clear(entries, pattern);
      var keys := set k | k in entries && GlobMatches(pattern, k);
      if keys != {} {
        entries := entries - keys;
      } else {
        forall k | k in entries
          ensures !GlobMatches(pattern, k)
        {
          assert k !in keys;
        }
      }
      assert forall k :: k in entries <==> k in cleared;
    }
  }

  /** Two identical GETs in a row, the second before the entry expires:
      the second is served from the cache, with the first one's body, and
      its handler does not run. */
  method RepeatedRead(cache: RedisCache, req: Request, duration: int, first: Reply, second: Reply, dt: nat)
    returns (a: Served, b: Served)
    requires req.verb == "GET" && duration >= 1 && dt < duration
    requires Get(cache.entries, cache.now, CacheKey(req.originalUrl, req.url)).None?
    modifies cache
    ensures a == Served(first, true, Miss)
    ensures b == Served(Reply(200, first.body), false, Hit)
  {
    ghost var t := cache.now;
    ghost var before := cache.entries;
    a := cache.Handle(req, duration, first, false);
    cache.Advance(dt);
    b := cache.Handle(req, duration, second, false);
    MissThenHit(before, t, req, duration, first, dt, second);
  }
}
