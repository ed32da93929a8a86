/** CacheManager: a key/value store with a seven-day expiry, keyed by a digest of a semantic string.
    Time is an integer count of microseconds (the resolution of datetime.isoformat()); the files of
    the cache directory are the map `entries`. */
module Cache {
  import opened Wrappers
  import opened Json

  const CACHE_EXPIRY_DAYS := 7
  const MICROS_PER_DAY := 86_400_000_000
  /** The age from which an entry is expired. */
  const EXPIRY_MICROS := CACHE_EXPIRY_DAYS * MICROS_PER_DAY

  /** One cache file: {"timestamp": ..., "content": ...}. */
  datatype Entry = Entry(timestamp: int, content: Json)

  /** `(now - cached_time).days`: timedelta rounds the day count down, also for negative ages. */
  function AgeInDays(now: int, timestamp: int): int {
    (now - timestamp) / MICROS_PER_DAY
  }

  /** What `get` returns for `key` at time `now`. */
  function Lookup(entries: map<string, Entry>, key: string, now: int): Option<Json> {
    if key in entries && AgeInDays(now, entries[key].timestamp) < CACHE_EXPIRY_DAYS then
      Some(entries[key].content)
    else
      None
  }

  /** Counting whole days below seven is the same as an age below seven days. */
  lemma FreshIff(now: int, timestamp: int)
    ensures AgeInDays(now, timestamp) < CACHE_EXPIRY_DAYS <==> now - timestamp < EXPIRY_MICROS
  {
    var age := now - timestamp;
    var d := age / MICROS_PER_DAY;
    assert age == d * MICROS_PER_DAY + age % MICROS_PER_DAY;
    if d < CACHE_EXPIRY_DAYS {
      assert d * MICROS_PER_DAY <= (CACHE_EXPIRY_DAYS - 1) * MICROS_PER_DAY;
    } else {
      assert d * MICROS_PER_DAY >= CACHE_EXPIRY_DAYS * MICROS_PER_DAY;
    }
  }

  /** An entry is returned exactly when it exists and is younger than seven days. */
  lemma LookupIff(entries: map<string, Entry>, key: string, now: int)
    ensures Lookup(entries, key, now).Some? <==> key in entries && now - entries[key].timestamp < EXPIRY_MICROS
    ensures Lookup(entries, key, now).Some? ==> Lookup(entries, key, now).value == entries[key].content
  {
    if key in entries {
      FreshIff(now, entries[key].timestamp);
    }
  }

  /** set(k, c) then get(k) less than seven days later gives back c. */
  lemma PutThenGet(entries: map<string, Entry>, key: string, content: Json, written: int, now: int)
    requires now - written < EXPIRY_MICROS
    ensures Lookup(entries[key := Entry(written, content)], key, now) == Some(content)
  {
    FreshIff(now, written);
  }

  /** An entry written at `written` is absent from `written + 7 days` on. */
  lemma ExpiredIsAbsent(entries: map<string, Entry>, key: string, now: int)
    requires key in entries && now >= entries[key].timestamp + EXPIRY_MICROS
    ensures Lookup(entries, key, now) == None
  {
    FreshIff(now, entries[key].timestamp);
  }

  /** set(k, c) changes what get returns for k only. */
  lemma PutLeavesOthers(entries: map<string, Entry>, key: string, other: string, e: Entry, now: int)
    requires other != key
    ensures Lookup(entries[key := e], other, now) == Lookup(entries, other, now)
  {
  }

  class CacheManager {
    /** hashlib.md5(text.encode()).hexdigest(), left uninterpreted. */
    const digest: string -> string
    var entries: map<string, Entry>

    constructor (digest: string -> string)
      ensures this.digest == digest && entries == map[]
    {
      this.digest := digest;
      entries := map[];
    }

    /** get_cache_key */
    function GetCacheKey(text: string): string {
      digest(text)
    }

    /** get: the stored content while it is younger than seven days, else None.
        The expired entry is not deleted (the method modifies nothing). */
    method Get(key: string, now: int) returns (r: Option<Json>)
      ensures r.Some? <==> key in entries && now - entries[key].timestamp < EXPIRY_MICROS
      ensures r.Some? ==> r.value == entries[key].content
      ensures r == Lookup(entries, key, now)
    {
      r := None;
      if key in entries {
        var data := entries[key];
        if (now - data.timestamp) / MICROS_PER_DAY < CACHE_EXPIRY_DAYS {
          r := Some(data.content);
        }
      }
      LookupIff(entries, key, now);
    }

    /** set: writes the content stamped with the current time, replacing any entry for the key. */
    method Set(key: string, content: Json, now: int)
      modifies this
      ensures entries == old(entries)[key := Entry(now, content)]
    {
      entries := entries[key := Entry(now, content)];
    }
  }
}
