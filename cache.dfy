/** The key-value cache with per-key expiry (the in-memory path of the cache service), its
    key-prefix helpers and its counter-based rate limiter.

    Time is an explicit clock `now` in milliseconds. A `set` schedules the removal of its key
    `expiryInSeconds * 1000` ms later; the model records that instant as the entry's deadline,
    and an entry is visible exactly while `now < deadline`. `Expire` is the removal timers firing. */
module Cache {
  import opened Wrappers

  datatype Entry<V> = Entry(value: V, deadline: int)

  /** A rate-limit counter and the instant its key expires (none until one is set). */
  datatype Counter = Counter(count: nat, deadline: Option<int>)

  datatype RateLimit = RateLimit(count: nat, exceeded: bool, remaining: nat)

  datatype RateLimitOutcome = Limited(limit: RateLimit) | StoreError

  /** What a read at time `now` finds under `key`. */
  function Lookup<V>(m: map<string, Entry<V>>, key: string, now: int): Option<V> {
    if key in m && now < m[key].deadline then Some(m[key].value) else None
  }

  /** The table after `set(key, value, expirySeconds)` at time `now`: the value is replaced and
      the previous removal timer is cancelled in favour of a new one. */
  function Put<V>(m: map<string, Entry<V>>, key: string, value: V, expirySeconds: int, now: int)
    : map<string, Entry<V>>
  {
    m[key := Entry(value, now + expirySeconds * 1000)]
  }

  /** The table once every removal timer due by `now` has fired. */
  function Sweep<V>(m: map<string, Entry<V>>, now: int): map<string, Entry<V>> {
    map k | k in m && now < m[k].deadline :: m[k]
  }

  /** A write is read back until its expiry and not after; other keys are unaffected. */
  lemma LookupAfterPut<V>(m: map<string, Entry<V>>, key: string, value: V, expirySeconds: int,
                          now: int, k: string, t: int)
    ensures Lookup(Put(m, key, value, expirySeconds, now), k, t) ==
      if k != key then Lookup(m, k, t)
      else if t < now + expirySeconds * 1000 then Some(value) else None
  {
  }

  /** A deleted key reads as absent; other keys are unaffected. */
  lemma LookupAfterRemove<V>(m: map<string, Entry<V>>, key: string, k: string, t: int)
    ensures Lookup(m - {key}, k, t) == if k == key then None else Lookup(m, k, t)
  {
  }

  /** Deleting twice is deleting once, and deleting an absent key changes nothing. */
  lemma RemoveIdempotent<V>(m: map<string, Entry<V>>, key: string)
    ensures (m - {key}) - {key} == m - {key}
    ensures key !in m ==> m - {key} == m
  {
  }

  /** Firing the due timers never changes what a read at `now` or later sees. */
  lemma SweepInvisible<V>(m: map<string, Entry<V>>, now: int, k: string, t: int)
    requires now <= t
    ensures Lookup(Sweep(m, now), k, t) == Lookup(m, k, t)
  {
  }

  // Key prefixes used by the store/get/delete helpers.
  function QRKey(token: string): string { "qr:" + token }
  function SessionKey(sessionId: string): string { "session:" + sessionId }
  function FaceEmbeddingKey(studentId: string): string { "face:embedding:" + studentId }
  function RateLimitKey(identifier: string): string { "ratelimit:" + identifier }

  /** Each helper family addresses one key per identifier. */
  lemma {:induction false} PrefixedKeysInjective(a: string, b: string)
    ensures QRKey(a) == QRKey(b) ==> a == b
    ensures SessionKey(a) == SessionKey(b) ==> a == b
    ensures FaceEmbeddingKey(a) == FaceEmbeddingKey(b) ==> a == b
    ensures RateLimitKey(a) == RateLimitKey(b) ==> a == b
  {
    assert QRKey(a)[3..] == a && QRKey(b)[3..] == b;
    assert SessionKey(a)[8..] == a && SessionKey(b)[8..] == b;
    assert FaceEmbeddingKey(a)[15..] == a && FaceEmbeddingKey(b)[15..] == b;
    assert RateLimitKey(a)[10..] == a && RateLimitKey(b)[10..] == b;
  }

  /** Keys of different families never collide, whatever the identifiers. */
  lemma {:induction false} KeyFamiliesDisjoint(a: string, b: string)
    ensures QRKey(a) != SessionKey(b)
    ensures QRKey(a) != FaceEmbeddingKey(b)
    ensures SessionKey(a) != FaceEmbeddingKey(b)
    ensures RateLimitKey(a) != QRKey(b) && RateLimitKey(a) != SessionKey(b)
    ensures RateLimitKey(a) != FaceEmbeddingKey(b)
  {
    assert QRKey(a)[0] == 'q' && SessionKey(b)[0] == 's' && FaceEmbeddingKey(b)[0] == 'f';
    assert SessionKey(a)[0] == 's' && RateLimitKey(a)[0] == 'r' && QRKey(b)[0] == 'q';
  }

  /** The verdict of the rate limiter for a counter that has just reached `count`. */
  function RateVerdict(count: nat, limit: int): (r: RateLimit)
    ensures r.count == count
    ensures r.exceeded <==> count > limit
    ensures r.exceeded ==> r.remaining == 0
    ensures !r.exceeded ==> count + r.remaining == limit
  {
    RateLimit(count, count > limit, Max(0, limit - count))
  }

  predicate CounterLive(c: Counter, now: int) {
    c.deadline.None? || now < c.deadline.value
  }

  /** The counters after an atomic increment of `key` at `now`; the expiry is set only when the
      counter becomes 1 (a fresh or expired key), and otherwise left as it was. */
  function Incremented(c: map<string, Counter>, key: string, windowInSeconds: int, now: int)
    : (r: map<string, Counter>)
    ensures key in r && r.Keys == c.Keys + {key}
    ensures forall k :: k in c && k != key ==> r[k] == c[k]
    ensures r[key].count == (if key in c && CounterLive(c[key], now) then c[key].count else 0) + 1
    ensures r[key].count == 1 ==> r[key].deadline == Some(now + windowInSeconds * 1000)
    ensures r[key].count != 1 ==> r[key].deadline == c[key].deadline
  {
    var current := (if key in c && CounterLive(c[key], now) then c[key].count else 0) + 1;
    var deadline := if current == 1 then Some(now + windowInSeconds * 1000) else c[key].deadline;
    c[key := Counter(current, deadline)]
  }

  class MemoryCache<V> {
    var entries: map<string, Entry<V>>
    var counters: map<string, Counter>
    /** The backing store raises on every call. */
    var faulty: bool

    constructor ()
      ensures entries == map[] && counters == map[] && !faulty
    {
      entries := map[];
      counters := map[];
      faulty := false;
    }

    /** Reads a live entry; a missing or expired key, or a store error, gives none. */
    method Get(key: string, now: int) returns (r: Option<V>)
      ensures r == if faulty then None else Lookup(entries, key, now)
    {
      if faulty {
        return None;
      }
      r := Lookup(entries, key, now);
    }

    /** Stores `value` under `key` for `expirySeconds`; reports false, changing nothing, on a store error. */
    method Set(key: string, value: V, expirySeconds: int := 3600, now: int) returns (ok: bool)
      modifies this`entries
      ensures ok == !faulty
      ensures entries == if faulty then old(entries) else Put(old(entries), key, value, expirySeconds, now)
    {
      if faulty {
        return false;
      }
      entries := Put(entries, key, value, expirySeconds, now);
      ok := true;
    }

    /** Deletes `key` (present or not); reports false, changing nothing, on a store error. */
    method Del(key: string) returns (ok: bool)
      modifies this`entries
      ensures ok == !faulty
      ensures entries == if faulty then old(entries) else old(entries) - {key}
    {
      if faulty {
        return false;
      }
      entries := entries - {key};
      ok := true;
    }

    /** The removal timers due by `now` fire. */
    method Expire(now: int)
      modifies this`entries
      ensures entries == Sweep(old(entries), now)
    {
      entries := Sweep(entries, now);
    }

    method StoreFaceEmbedding(studentId: string, embedding: V, now: int) returns (ok: bool)
      modifies this`entries
      ensures ok == !faulty
      ensures entries == if faulty then old(entries)
                         else Put(old(entries), FaceEmbeddingKey(studentId), embedding, 86400, now)
    {
      ok := Set(FaceEmbeddingKey(studentId), embedding, 86400, now);
    }

    method GetFaceEmbedding(studentId: string, now: int) returns (r: Option<V>)
      ensures r == if faulty then None else Lookup(entries, FaceEmbeddingKey(studentId), now)
    {
      r := Get(FaceEmbeddingKey(studentId), now);
    }

    method StoreQRCode(token: string, data: V, ttl: int := 300, now: int) returns (ok: bool)
      modifies this`entries
      ensures ok == !faulty
      ensures entries == if faulty then old(entries) else Put(old(entries), QRKey(token), data, ttl, now)
    {
      ok := Set(QRKey(token), data, ttl, now);
    }

    method GetQRCode(token: string, now: int) returns (r: Option<V>)
      ensures r == if faulty then None else Lookup(entries, QRKey(token), now)
    {
      r := Get(QRKey(token), now);
    }

    method DeleteQRCode(token: string) returns (ok: bool)
      modifies this`entries
      ensures ok == !faulty
      ensures entries == if faulty then old(entries) else old(entries) - {QRKey(token)}
    {
      ok := Del(QRKey(token));
    }

    method StoreSession(sessionId: string, data: V, ttl: int := 3600, now: int) returns (ok: bool)
      modifies this`entries
      ensures ok == !faulty
      ensures entries == if faulty then old(entries) else Put(old(entries), SessionKey(sessionId), data, ttl, now)
    {
      ok := Set(SessionKey(sessionId), data, ttl, now);
    }

    method GetSession(sessionId: string, now: int) returns (r: Option<V>)
      ensures r == if faulty then None else Lookup(entries, SessionKey(sessionId), now)
    {
      r := Get(SessionKey(sessionId), now);
    }

    method DeleteSession(sessionId: string) returns (ok: bool)
      modifies this`entries
      ensures ok == !faulty
      ensures entries == if faulty then old(entries) else old(entries) - {SessionKey(sessionId)}
    {
      ok := Del(SessionKey(sessionId));
    }

    /** Counts one request for `identifier`; a store error propagates as `StoreError`. */
    method CheckRateLimit(identifier: string, limit: int, windowInSeconds: int, now: int)
      returns (r: RateLimitOutcome)
      modifies this`counters
      ensures faulty ==> r == StoreError && counters == old(counters)
      ensures !faulty ==> counters == Incremented(old(counters), RateLimitKey(identifier), windowInSeconds, now)
      ensures !faulty ==> r == Limited(RateVerdict(counters[RateLimitKey(identifier)].count, limit))
    {
      if faulty {
        return StoreError;
      }
      var key := RateLimitKey(identifier);
      counters := Incremented(counters, key, windowInSeconds, now);
      var current := counters[key].count;
      r := Limited(RateVerdict(current, limit));
    }
  }
}
