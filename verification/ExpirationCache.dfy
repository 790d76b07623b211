/** The expiring cache (`expiration_cache.go`): its operations on values, the class, the account of every stored value,
    and why the clean-up of a cache that does not renew its entries cannot be seen. */
module ExpirationCache {
  import opened Strings

  /** How a cache is set up. `shouldDispose` may keep expired entries from being cleaned up. */
  datatype Config<!V> = Config(ttl: nat, renewOnAccess: bool, shouldDispose: Option<V -> bool>)

  /** An entry; `id` (record) says as the how manieth value it was stored. */
  datatype Item<V> = Item(item: V, expirationTime: int, id: nat)

  /** `stored` (record) counts the values stored, `disposed` lists the ids of those disposed of. */
  datatype State<K(==), V> = State(cache: map<K, Item<V>>, disposed: multiset<nat>, stored: nat, now: int)

  datatype Op<K, V> =
    | Put(key: K, value: V)
    | Get(key: K)
    | ComputeIfAbsent(key: K, value: V)
    | Exists(key: K)
    | Remove(key: K)
    | RemoveExpiredEntries
    | Clear
    | Tick(time: nat)

  datatype Answer<V> = Value(value: Option<V>) | Truth(truth: bool) | Nothing

  predicate IsExpired<V>(item: Item<V>, now: int) {
    now > item.expirationTime
  }

  predicate ShouldCleanup<V>(config: Config<V>, item: Item<V>, now: int) {
    IsExpired(item, now) && (config.shouldDispose.Some? ==> config.shouldDispose.value(item.item))
  }

  function Store<K, V>(config: Config<V>, s: State<K, V>, key: K, value: V): State<K, V> {
    s.(cache := s.cache[key := Item(value, s.now + config.ttl, s.stored)], stored := s.stored + 1,
       disposed := s.disposed + (if key in s.cache then multiset{s.cache[key].id} else multiset{}))
  }

  function Renew<K, V>(config: Config<V>, s: State<K, V>, key: K): State<K, V>
    requires key in s.cache
  {
    s.(cache := s.cache[key := s.cache[key].(expirationTime := s.now + config.ttl)])
  }

  /** Entries that go, and those that stay. */
  function Gone<K, V>(config: Config<V>, s: State<K, V>): set<nat> {
    set k | k in s.cache && ShouldCleanup(config, s.cache[k], s.now) :: s.cache[k].id
  }

  function Staying<K, V>(config: Config<V>, s: State<K, V>): map<K, Item<V>> {
    map k | k in s.cache && !ShouldCleanup(config, s.cache[k], s.now) :: s.cache[k]
  }

  function AllIds<K, V>(s: State<K, V>): set<nat> {
    set k | k in s.cache :: s.cache[k].id
  }

  function Next<K, V>(config: Config<V>, s: State<K, V>, op: Op<K, V>): State<K, V> {
    match op
    case Put(k, v) => Store(config, s, k, v)
    case Get(k) => if k in s.cache && config.renewOnAccess then Renew(config, s, k) else s
    case ComputeIfAbsent(k, v) =>
      if k in s.cache && config.renewOnAccess then Renew(config, s, k)
      else if k in s.cache && !IsExpired(s.cache[k], s.now) then s
      else Store(config, s, k, v)
    case Exists(_) => s
    case Remove(k) =>
      if k in s.cache then s.(cache := s.cache - {k}, disposed := s.disposed + multiset{s.cache[k].id}) else s
    case RemoveExpiredEntries =>
      s.(cache := Staying(config, s), disposed := s.disposed + multiset(Gone(config, s)))
    case Clear => s.(cache := map[], disposed := s.disposed + multiset(AllIds(s)))
    case Tick(n) => s.(now := s.now + n)
  }

  function Reply<K, V>(config: Config<V>, s: State<K, V>, op: Op<K, V>): Answer<V> {
    match op
    case Put(k, _) => Value(if k in s.cache then Some(s.cache[k].item) else None)
    case Get(k) =>
      Value(if k in s.cache && (config.renewOnAccess || !IsExpired(s.cache[k], s.now)) then Some(s.cache[k].item) else None)
    case ComputeIfAbsent(k, v) =>
      Value(Some(if k in s.cache && (config.renewOnAccess || !IsExpired(s.cache[k], s.now)) then s.cache[k].item else v))
    case Exists(k) => Truth(k in s.cache && !ShouldCleanup(config, s.cache[k], s.now))
    case Remove(k) => Value(if k in s.cache then Some(s.cache[k].item) else None)
    case RemoveExpiredEntries => Nothing
    case Clear => Nothing
    case Tick(_) => Nothing
  }

  // ---------------------------------------------------------------------------------------------
  // Every stored value is cached or disposed of, once
  // ---------------------------------------------------------------------------------------------

  ghost predicate Cached<K(!new), V>(s: State<K, V>, id: nat) {
    exists k :: k in s.cache && s.cache[k].id == id
  }

  /** Different entries have different ids; every id given out is cached or was disposed of exactly once, not both. */
  ghost predicate Conserved<K(!new), V>(s: State<K, V>) {
    && (forall k, l :: k in s.cache && l in s.cache && k != l ==> s.cache[k].id != s.cache[l].id)
    && (forall k :: k in s.cache ==> s.cache[k].id < s.stored)
    && (forall id: nat :: id < s.stored ==> s.disposed[id] == if Cached(s, id) then 0 else 1)
    && (forall id: nat :: id >= s.stored ==> s.disposed[id] == 0)
  }

  lemma StoreConserves<K(!new), V>(config: Config<V>, s: State<K, V>, key: K, value: V)
    requires Conserved(s)
    ensures Conserved(Store(config, s, key, value))
  {
    var t := Store(config, s, key, value);
    assert key in t.cache && t.cache[key].id == s.stored;
    forall id: nat | id < t.stored ensures t.disposed[id] == if Cached(t, id) then 0 else 1 {
      if id < s.stored && Cached(s, id) {
        var k :| k in s.cache && s.cache[k].id == id;
        assert k != key ==> k in t.cache && t.cache[k].id == id;
      }
    }
  }

  lemma CacheLeft<K(!new), V>(s: State<K, V>, t: State<K, V>, ids: set<nat>)
    requires Conserved(s) && t.stored == s.stored && t.disposed == s.disposed + multiset(ids)
    requires forall k :: k in t.cache ==> k in s.cache && t.cache[k].id == s.cache[k].id && s.cache[k].id !in ids
    requires forall k :: k in s.cache && k !in t.cache ==> s.cache[k].id in ids
    requires forall id :: id in ids ==> Cached(s, id)
    ensures Conserved(t)
  {
    forall id: nat | id < t.stored ensures t.disposed[id] == if Cached(t, id) then 0 else 1 {
      if Cached(s, id) && id !in ids {
        var k :| k in s.cache && s.cache[k].id == id;
        assert k in t.cache && t.cache[k].id == id;
      }
    }
  }

  lemma StepConserves<K(!new), V>(config: Config<V>, s: State<K, V>, op: Op<K, V>)
    requires Conserved(s)
    ensures Conserved(Next(config, s, op))
  {
    match op {
      case Put(k, v) => StoreConserves(config, s, k, v);
      case Get(k) =>
        if k in s.cache && config.renewOnAccess { CacheLeft(s, Renew(config, s, k), {}); }
      case ComputeIfAbsent(k, v) =>
        if k in s.cache && config.renewOnAccess { CacheLeft(s, Renew(config, s, k), {}); }
        else { StoreConserves(config, s, k, v); }
      case Exists(_) =>
      case Remove(k) =>
        if k in s.cache {
          assert multiset({s.cache[k].id}) == multiset{s.cache[k].id};
          CacheLeft(s, Next(config, s, op), {s.cache[k].id});
        }
      case RemoveExpiredEntries => CacheLeft(s, Next(config, s, op), Gone(config, s));
      case Clear => CacheLeft(s, Next(config, s, op), AllIds(s));
      case Tick(_) => CacheLeft(s, Next(config, s, op), {});
    }
  }

  function Run<K, V>(config: Config<V>, s: State<K, V>, ops: seq<Op<K, V>>): State<K, V>
    decreases |ops|
  {
    if ops == [] then s else Run(config, Next(config, s, ops[0]), ops[1..])
  }

  /** In every run, every value ever stored is either still cached, under one key, or was disposed of exactly once. */
  lemma {:induction false} RunConserves<K(!new), V>(config: Config<V>, s: State<K, V>, ops: seq<Op<K, V>>)
    requires Conserved(s)
    ensures Conserved(Run(config, s, ops))
    decreases |ops|
  {
    if ops != [] {
      StepConserves(config, s, ops[0]);
      RunConserves(config, Next(config, s, ops[0]), ops[1..]);
    }
  }

  // ---------------------------------------------------------------------------------------------
  // The clean-up cannot be seen
  // ---------------------------------------------------------------------------------------------

  /** The same, except that some entries due for clean-up are missing in `t`. */
  ghost predicate Tidier<K(!new), V>(config: Config<V>, s: State<K, V>, t: State<K, V>) {
    && t.now == s.now && t.stored == s.stored
    && (forall k :: k in t.cache ==> k in s.cache && t.cache[k] == s.cache[k])
    && (forall k :: k in s.cache && k !in t.cache ==> ShouldCleanup(config, s.cache[k], s.now))
  }

  /** What looks at a value or asks whether there is one. */
  predicate Looks<K, V>(op: Op<K, V>) {
    op.Get? || op.ComputeIfAbsent? || op.Exists?
  }

  lemma SameReply<K(!new), V>(config: Config<V>, s: State<K, V>, t: State<K, V>, op: Op<K, V>)
    requires !config.renewOnAccess && Tidier(config, s, t) && Looks(op)
    ensures Reply(config, s, op) == Reply(config, t, op)
  {
    match op {
      case Get(_) =>
      case ComputeIfAbsent(_, _) =>
      case Exists(_) =>
    }
  }

  lemma StoreStaysTidier<K(!new), V>(config: Config<V>, s: State<K, V>, t: State<K, V>, key: K, value: V)
    requires Tidier(config, s, t)
    ensures Tidier(config, Store(config, s, key, value), Store(config, t, key, value))
  {
  }

  lemma CleanupStaysTidier<K(!new), V>(config: Config<V>, s: State<K, V>, t: State<K, V>)
    requires Tidier(config, s, t)
    ensures Tidier(config, Next(config, s, RemoveExpiredEntries), Next(config, t, RemoveExpiredEntries))
  {
  }

  lemma StaysTidier<K(!new), V>(config: Config<V>, s: State<K, V>, t: State<K, V>, op: Op<K, V>)
    requires !config.renewOnAccess && Tidier(config, s, t)
    ensures Tidier(config, Next(config, s, op), Next(config, t, op))
  {
    match op {
      case Put(k, v) => StoreStaysTidier(config, s, t, k, v);
      case Get(_) =>
      case ComputeIfAbsent(k, v) => StoreStaysTidier(config, s, t, k, v);
      case Exists(_) =>
      case Remove(_) =>
      case RemoveExpiredEntries => CleanupStaysTidier(config, s, t);
      case Clear =>
      case Tick(_) =>
    }
  }

  function Replies<K, V>(config: Config<V>, s: State<K, V>, ops: seq<Op<K, V>>): (r: seq<Answer<V>>)
    ensures |r| == |ops|
    decreases |ops|
  {
    if ops == [] then [] else [Reply(config, s, ops[0])] + Replies(config, Next(config, s, ops[0]), ops[1..])
  }

  lemma {:induction false} TidierReplies<K(!new), V>(config: Config<V>, s: State<K, V>, t: State<K, V>, ops: seq<Op<K, V>>)
    requires !config.renewOnAccess && Tidier(config, s, t)
    ensures forall i :: 0 <= i < |ops| && Looks(ops[i]) ==> Replies(config, s, ops)[i] == Replies(config, t, ops)[i]
    decreases |ops|
  {
    if ops != [] {
      if Looks(ops[0]) { SameReply(config, s, t, ops[0]); }
      StaysTidier(config, s, t, ops[0]);
      TidierReplies(config, Next(config, s, ops[0]), Next(config, t, ops[0]), ops[1..]);
    }
  }

  /** In a cache that does not renew, a clean-up anywhere in a run changes no later `Get`, `ComputeIfAbsent` or
      `Exists`. */
  lemma CleanupIsInvisible<K(!new), V>(config: Config<V>, s: State<K, V>, before: seq<Op<K, V>>, later: seq<Op<K, V>>)
    requires !config.renewOnAccess
    ensures var reached := Run(config, s, before);
            var tidied := Next(config, reached, RemoveExpiredEntries);
            forall i :: 0 <= i < |later| && Looks(later[i]) ==>
              Replies(config, reached, later)[i] == Replies(config, tidied, later)[i]
  {
    var reached := Run(config, s, before);
    TidierReplies(config, reached, Next(config, reached, RemoveExpiredEntries), later);
  }

  /** In a cache that renews on access it can be seen: an expired entry is brought back to life by looking at it, unless
      it has been cleaned up. */
  lemma CleanupShowsWhenRenewing<K, V>(config: Config<V>, s: State<K, V>, k: K)
    requires config.renewOnAccess && k in s.cache && ShouldCleanup(config, s.cache[k], s.now)
    ensures Reply(config, s, Get(k)) == Value(Some(s.cache[k].item))
    ensures Reply(config, Next(config, s, RemoveExpiredEntries), Get(k)) == Value(None)
  {
  }

  // ---------------------------------------------------------------------------------------------
  // How long a value can be had
  // ---------------------------------------------------------------------------------------------

  /** What may replace or take away the value of key `k`. */
  predicate Touches<K(==), V>(op: Op<K, V>, k: K) {
    ((op.Put? || op.Remove? || op.ComputeIfAbsent?) && op.key == k) || op.Clear?
  }

  function Elapsed<K, V>(ops: seq<Op<K, V>>): nat {
    if ops == [] then 0 else (if ops[0].Tick? then ops[0].time else 0) + Elapsed(ops[1..])
  }

  /** `v` is there until `deadline`; afterwards it may have been cleaned up. */
  predicate LivesUntil<K(==), V(==)>(s: State<K, V>, k: K, v: V, deadline: int) {
    if k in s.cache then s.cache[k].item == v && s.cache[k].expirationTime == deadline else s.now > deadline
  }

  lemma {:induction false} LivesOn<K, V>(config: Config<V>, s: State<K, V>, k: K, v: V, deadline: int, ops: seq<Op<K, V>>)
    requires !config.renewOnAccess && LivesUntil(s, k, v, deadline)
    requires forall i :: 0 <= i < |ops| ==> !Touches(ops[i], k)
    ensures LivesUntil(Run(config, s, ops), k, v, deadline) && Run(config, s, ops).now == s.now + Elapsed(ops)
    decreases |ops|
  {
    if ops != [] {
      assert !Touches(ops[0], k);
      var t := Next(config, s, ops[0]);
      assert LivesUntil(t, k, v, deadline) && t.now == s.now + if ops[0].Tick? then ops[0].time else 0;
      LivesOn(config, t, k, v, deadline, ops[1..]);
    }
  }

  /** In a cache that does not renew, a value put is got back exactly for the time to live, whatever happens meanwhile to
      other keys, and however often the cache is cleaned up. */
  lemma ValueLivesItsTime<K, V>(config: Config<V>, s: State<K, V>, k: K, v: V, later: seq<Op<K, V>>)
    requires !config.renewOnAccess && forall i :: 0 <= i < |later| ==> !Touches(later[i], k)
    ensures Reply(config, Run(config, Next(config, s, Put(k, v)), later), Get(k))
         == Value(if Elapsed(later) <= config.ttl then Some(v) else None)
  {
    LivesOn(config, Next(config, s, Put(k, v)), k, v, s.now + config.ttl, later);
  }

  // ---------------------------------------------------------------------------------------------
  // The clean-up entry by entry
  // ---------------------------------------------------------------------------------------------

  /** What is in the cache, and what has gone, when the keys in `left` have not been looked at. */
  function StayingBut<K, V>(config: Config<V>, s: State<K, V>, left: set<K>): map<K, Item<V>> {
    map k | k in s.cache && (k in left || !ShouldCleanup(config, s.cache[k], s.now)) :: s.cache[k]
  }

  function GoneBut<K, V>(config: Config<V>, s: State<K, V>, left: set<K>): set<nat> {
    set k | k in s.cache && k !in left && ShouldCleanup(config, s.cache[k], s.now) :: s.cache[k].id
  }

  lemma CleanUpOne<K, V>(config: Config<V>, s: State<K, V>, left: set<K>, k: K)
    requires k in left && k in s.cache
    ensures StayingBut(config, s, left)[k] == s.cache[k]
    ensures ShouldCleanup(config, s.cache[k], s.now) ==>
              && StayingBut(config, s, left - {k}) == StayingBut(config, s, left) - {k}
              && GoneBut(config, s, left - {k}) == GoneBut(config, s, left) + {s.cache[k].id}
    ensures !ShouldCleanup(config, s.cache[k], s.now) ==>
              && StayingBut(config, s, left - {k}) == StayingBut(config, s, left)
              && GoneBut(config, s, left - {k}) == GoneBut(config, s, left)
  {
  }

  // ---------------------------------------------------------------------------------------------
  // The class
  // ---------------------------------------------------------------------------------------------

  class ExpirationCache<K(==), V> {
    const config: Config<V>
    var cache: map<K, Item<V>>
    /** Ids of the values handed to the disposal function. */
    var disposed: multiset<nat>
    var stored: nat

    constructor (config: Config<V>)
      ensures this.config == config && cache == map[] && disposed == multiset{} && stored == 0
    {
      this.config, cache, disposed, stored := config, map[], multiset{}, 0;
    }

    function At(now: int): State<K, V>
      reads this
    {
      State(cache, disposed, stored, now)
    }

    method Put(key: K, value: V, now: int) returns (prev: Option<V>)
      modifies this
      ensures At(now) == Next(config, old(At(now)), Op.Put(key, value))
      ensures Value(prev) == Reply(config, old(At(now)), Op.Put(key, value))
    {
      var had := key in cache;
      prev := if had then Some(cache[key].item) else None;
      if had { disposed := disposed + multiset{cache[key].id}; }
      cache := cache[key := Item(value, now + config.ttl, stored)];
      stored := stored + 1;
    }

    method Get(key: K, now: int) returns (value: Option<V>)
      modifies this
      ensures At(now) == Next(config, old(At(now)), Op.Get(key))
      ensures Value(value) == Reply(config, old(At(now)), Op.Get(key))
    {
      if config.renewOnAccess {
        if key !in cache { return None; }
        cache := cache[key := cache[key].(expirationTime := now + config.ttl)];
        return Some(cache[key].item);
      }
      if key !in cache { return None; }
      if IsExpired(cache[key], now) { return None; }
      return Some(cache[key].item);
    }

    method ComputeIfAbsent(key: K, computed: V, now: int) returns (value: V)
      modifies this
      ensures At(now) == Next(config, old(At(now)), Op.ComputeIfAbsent(key, computed))
      ensures Value(Some(value)) == Reply(config, old(At(now)), Op.ComputeIfAbsent(key, computed))
    {
      if key in cache {
        if config.renewOnAccess {
          cache := cache[key := cache[key].(expirationTime := now + config.ttl)];
          return cache[key].item;
        }
        if !IsExpired(cache[key], now) { return cache[key].item; }
        disposed := disposed + multiset{cache[key].id};
      }
      cache := cache[key := Item(computed, now + config.ttl, stored)];
      stored := stored + 1;
      return computed;
    }

    method Exists(key: K, now: int) returns (r: bool)
      ensures Truth(r) == Reply(config, At(now), Op.Exists(key))
    {
      return key in cache && !ShouldCleanup(config, cache[key], now);
    }

    method Remove(key: K, now: int) returns (value: Option<V>)
      modifies this
      ensures At(now) == Next(config, old(At(now)), Op.Remove(key))
      ensures Value(value) == Reply(config, old(At(now)), Op.Remove(key))
    {
      if key !in cache { return None; }
      value := Some(cache[key].item);
      disposed := disposed + multiset{cache[key].id};
      cache := cache - {key};
    }

    /** The loop over the map, in any order. The values are disposed of behind the lock; here that is their ids. */
    method RemoveExpiredEntries(now: int)
      modifies this
      ensures At(now) == Next(config, old(At(now)), Op.RemoveExpiredEntries)
    {
      ghost var before := At(now);
      var left := cache.Keys;
      var toDispose: set<nat> := {};
      while left != {}
        invariant left <= before.cache.Keys && unchanged(`disposed) && unchanged(`stored)
        invariant cache == StayingBut(config, before, left) && toDispose == GoneBut(config, before, left)
        decreases left
      {
        var k :| k in left;
        CleanUpOne(config, before, left, k);
        if ShouldCleanup(config, cache[k], now) {
          toDispose := toDispose + {cache[k].id};
          cache := cache - {k};
        }
        left := left - {k};
      }
      disposed := disposed + multiset(toDispose);
      assert toDispose == Gone(config, before);
    }

    method Clear(now: int)
      modifies this
      ensures At(now) == Next(config, old(At(now)), Op.Clear)
    {
      var entries := cache;
      cache := map[];
      disposed := disposed + multiset(set k | k in entries :: entries[k].id);
    }
  }
}
