/** The process-wide response cache of middleware/cache.js: a map from request
    key to `{data, expiry}`, consulted by GET requests, written through by the
    first `res.json` of a miss, cleared by pattern and swept for expired entries.
    Time is the explicit parameter `now`, in milliseconds. */
module ResponseCache {
  import opened Wrappers
  import opened Http
  import opened JsString

  const KeyPrefix: string := "__express__"

  datatype Entry = Entry(data: Body, expiry: int)

  /** The cache key of a request: the prefix and `req.originalUrl`, nothing else. */
  function CacheKey(originalUrl: string): (key: string)
    ensures StartsWith(key, KeyPrefix)
    ensures key[|KeyPrefix|..] == originalUrl
  {
    KeyPrefix + originalUrl
  }

  /** Two requests share an entry exactly when their URLs are equal. */
  lemma CacheKeyInjective(u1: string, u2: string)
    ensures CacheKey(u1) == CacheKey(u2) <==> u1 == u2
  {
    if CacheKey(u1) == CacheKey(u2) {
      assert u1 == CacheKey(u1)[|KeyPrefix|..];
    }
  }

  /** The body `cache.get(key)` yields when it also passes `cached.expiry > now`. */
  function Lookup(m: map<string, Entry>, key: string, now: int): Option<Body> {
    if key in m && m[key].expiry > now then Some(m[key].data) else None
  }

  /** What the middleware does with a request, before any handler runs. */
  datatype Step =
    | PassThrough        // not a GET: `next()` with `res.json` left alone
    | Hit(body: Body)    // `res.json(cached.data)`, `next` not called
    | Miss(key: string)  // `res.json` patched to write `key` through, then `next()`

  /** Only GETs consult the cache; a hit serves the entry's data, a miss carries the key to write. */
  function Decide(m: map<string, Entry>, req: Request, now: int): (step: Step)
    ensures step.PassThrough? <==> req.verb != "GET"
    ensures step.Hit? ==> CacheKey(req.originalUrl) in m && m[CacheKey(req.originalUrl)].data == step.body
    ensures step.Miss? ==> step.key == CacheKey(req.originalUrl) && Lookup(m, step.key, now).None?
  {
    if req.verb != "GET" then PassThrough
    else
      var key := CacheKey(req.originalUrl);
      match Lookup(m, key, now)
      case Some(body) => Hit(body)
      case None => Miss(key)
  }

  /** The map after the patched `res.json(body)` at time `now`. */
  function Stored(m: map<string, Entry>, key: string, body: Body, now: int, duration: int): map<string, Entry> {
    m[key := Entry(body, now + duration)]
  }

  /** Whether `clearCache(pattern)` deletes `key`; the empty pattern stands for every falsy one. */
  predicate ClearedBy(key: string, pattern: string) {
    pattern == "" || Includes(key, pattern)
  }

  function Cleared(m: map<string, Entry>, pattern: string): (r: map<string, Entry>)
    ensures forall k :: k in r <==> k in m && !ClearedBy(k, pattern)
    ensures forall k :: k in r ==> r[k] == m[k]
  {
    map k | k in m && !ClearedBy(k, pattern) :: m[k]
  }

  function Swept(m: map<string, Entry>, now: int): (r: map<string, Entry>)
    ensures forall k :: k in r <==> k in m && m[k].expiry > now
    ensures forall k :: k in r ==> r[k] == m[k]
  {
    map k | k in m && m[k].expiry > now :: m[k]
  }

  /** A GET is served from the cache exactly when its entry expires strictly after `now`;
      at `expiry == now` it is a miss, and a miss is the same whether the entry expired
      or never existed. */
  lemma HitIffUnexpired(m: map<string, Entry>, req: Request, now: int)
    requires req.verb == "GET"
    ensures Decide(m, req, now).Hit? <==>
              CacheKey(req.originalUrl) in m && m[CacheKey(req.originalUrl)].expiry > now
    ensures Decide(m, req, now).Hit? ==> Decide(m, req, now).body == m[CacheKey(req.originalUrl)].data
    ensures !Decide(m, req, now).Hit? ==>
              Decide(m, req, now) == Decide(m - {CacheKey(req.originalUrl)}, req, now)
  {
  }

  /** A body written through at `t0` is served to every GET of the same URL until
      `t0 + duration` and not from then on. */
  lemma ServedUntilExpiry(m: map<string, Entry>, req: Request, body: Body, t0: int, duration: int, t: int)
    requires req.verb == "GET"
    ensures var m' := Stored(m, CacheKey(req.originalUrl), body, t0, duration);
            Decide(m', req, t) == if t < t0 + duration then Hit(body) else Miss(CacheKey(req.originalUrl))
  {
  }

  /** The last write to a key wins. */
  lemma LastWriterWins(m: map<string, Entry>, key: string, b1: Body, t1: int, b2: Body, t2: int, duration: int)
    ensures Stored(Stored(m, key, b1, t1, duration), key, b2, t2, duration) == Stored(m, key, b2, t2, duration)
  {
  }

  /** The key ignores everything but the URL: two requests for the same URL, whoever
      sends them, see the same cache outcome. */
  lemma SharedAcrossUsers(m: map<string, Entry>, r1: Request, r2: Request, now: int)
    requires r1.verb == r2.verb && r1.originalUrl == r2.originalUrl
    ensures Decide(m, r1, now) == Decide(m, r2, now)
  {
  }

  /** Clearing twice with the same pattern is clearing once. */
  lemma ClearIdempotent(m: map<string, Entry>, pattern: string)
    ensures Cleared(Cleared(m, pattern), pattern) == Cleared(m, pattern)
  {
  }

  /** A falsy pattern empties the cache. */
  lemma ClearAll(m: map<string, Entry>)
    ensures Cleared(m, "") == map[]
  {
  }

  /** The sweep at `now` changes no lookup made at `now` or later. */
  lemma SweepInvisible(m: map<string, Entry>, now: int, key: string, t: int)
    requires t >= now
    ensures Lookup(Swept(m, now), key, t) == Lookup(m, key, t)
  {
  }

  /** The module-level `cache` Map. */
  class Cache {
    var entries: map<string, Entry>

    constructor ()
      ensures entries == map[]
    {
      entries := map[];
    }

    /** The middleware proper: a read of the map and nothing else. */
    method Handle(req: Request, now: int) returns (step: Step)
      ensures step == Decide(entries, req, now)
      ensures req.verb != "GET" ==> step == PassThrough
      ensures step.Hit? ==> req.verb == "GET" && Lookup(entries, CacheKey(req.originalUrl), now) == Some(step.body)
      ensures step.Miss? ==> step.key == CacheKey(req.originalUrl)
    {
      if req.verb != "GET" {
        return PassThrough;
      }
      var key := CacheKey(req.originalUrl);
      if key in entries && entries[key].expiry > now {
        step := Hit(entries[key].data);
      } else {
        step := Miss(key);
      }
    }

    /** The patched `res.json(body)` after a miss on `originalUrl`: store the body,
        whatever the response status (it is not consulted), then send it unchanged. */
    method Respond(originalUrl: string, body: Body, now: int, duration: int) returns (sent: Body)
      modifies this
      ensures entries == Stored(old(entries), CacheKey(originalUrl), body, now, duration)
      ensures sent == body
    {
      var key := CacheKey(originalUrl);
      entries := entries[key := Entry(body, now + duration)];
      sent := body;
    }

    /** `clearCache(pattern)`; the empty string stands for a falsy pattern. */
    method Clear(pattern: string)
      modifies this
      ensures entries == Cleared(old(entries), pattern)
    {
      var pending := entries.Keys;
      while pending != {}
        invariant pending <= old(entries).Keys
        invariant entries == map k | k in old(entries) && (k in pending || !ClearedBy(k, pattern)) :: old(entries)[k]
        decreases pending
      {
        var k :| k in pending;
        if pattern == "" || Includes(k, pattern) {
          entries := entries - {k};
        }
        pending := pending - {k};
      }
    }

    /** The body of the periodic sweep: delete every entry with `expiry <= now`. */
    method Sweep(now: int)
      modifies this
      ensures entries == Swept(old(entries), now)
    {
      var pending := entries.Keys;
      while pending != {}
        invariant pending <= old(entries).Keys
        invariant entries == map k | k in old(entries) && (k in pending || old(entries)[k].expiry > now) :: old(entries)[k]
        decreases pending
      {
        var k :| k in pending;
        if entries[k].expiry <= now {
          entries := entries - {k};
        }
        pending := pending - {k};
      }
    }
  }
}
