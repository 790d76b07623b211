/** The timed map behind the host selectors (`cache_map.go`). Entries die by the clock alone: the clean-up that now and
    then runs after a change cannot be seen. */
module CacheMap {
  import opened Strings

  const CLEANUP_INTERVAL := 600_000_000_000

  datatype CacheValue<T> = CacheValue(item: T, expirationTime: int)

  predicate IsExpired<T>(value: CacheValue<T>, now: int) {
    now > value.expirationTime
  }

  class CacheMap<T> {
    var cache: map<string, CacheValue<T>>
    var cleanupTimeNanos: int

    constructor (now: int)
      ensures cache == map[]
    {
      cache, cleanupTimeNanos := map[], now + CLEANUP_INTERVAL;
    }

    /** What `Get` finds at time `now`. */
    function Live(now: int): map<string, T>
      reads this
    {
      map k | k in cache && !IsExpired(cache[k], now) :: cache[k].item
    }

    method Get(key: string, now: int) returns (value: Option<T>)
      ensures value == if key in Live(now) then Some(Live(now)[key]) else None
    {
      if key !in cache || IsExpired(cache[key], now) { return None; }
      return Some(cache[key].item);
    }

    method CleanUp(now: int)
      modifies this
      ensures forall t :: t >= now ==> Live(t) == old(Live(t))
    {
      if now > cleanupTimeNanos {
        cache := map k | k in cache && !IsExpired(cache[k], now) :: cache[k];
        cleanupTimeNanos := now + CLEANUP_INTERVAL;
      }
    }

    method Put(key: string, value: T, expiration: nat, now: int)
      modifies this
      ensures forall t :: t >= now ==>
                Live(t) == if t <= now + expiration then old(Live(t))[key := value] else old(Live(t)) - {key}
    {
      cache := cache[key := CacheValue(value, now + expiration)];
      CleanUp(now);
    }
  }
}
