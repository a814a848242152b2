/** The in-memory store: one deque per key inside a dict kept in recency order. */
module InMemory {
  import opened Sets
  import opened SlidingWindow

  const MAX_TRACKED_IPS: nat := 10_000

  /** Dict keys in insertion order, the newest outermost. */
  datatype Keys = Nil | Snoc(older: Keys, newest: Key)

  function Elements(ks: Keys): set<Key> {
    if ks.Nil? then {} else Elements(ks.older) + {ks.newest}
  }

  function Size(ks: Keys): nat {
    if ks.Nil? then 0 else Size(ks.older) + 1
  }

  predicate Distinct(ks: Keys) {
    ks.Snoc? ==> ks.newest !in Elements(ks.older) && Distinct(ks.older)
  }

  function Without(ks: Keys, key: Key): Keys {
    if ks.Nil? then Nil
    else if ks.newest == key then Without(ks.older, key)
    else Snoc(Without(ks.older, key), ks.newest)
  }

  /** next(iter(dict)). */
  function Oldest(ks: Keys): Key
    requires ks.Snoc?
  {
    if ks.older.Nil? then ks.newest else Oldest(ks.older)
  }

  function DropOldest(ks: Keys): Keys
    requires ks.Snoc?
  {
    if ks.older.Nil? then Nil else Snoc(DropOldest(ks.older), ks.newest)
  }

  /** popleft while the head is older than the cutoff. */
  function PopOld(bucket: seq<real>, cutoff: real): seq<real> {
    if bucket != [] && bucket[0] < cutoff then PopOld(bucket[1..], cutoff) else bucket
  }

  /** A Python dict: insertion order and contents. */
  datatype Memory = Memory(order: Keys, buckets: map<Key, seq<real>>)

  const EMPTY := Memory(Nil, map[])

  predicate WellFormed(m: Memory) {
    Distinct(m.order) && Elements(m.order) == m.buckets.Keys && Size(m.order) <= MAX_TRACKED_IPS
  }

  function Touch(m: Memory, key: Key): Memory {
    if key in m.buckets then Memory(Snoc(Without(m.order, key), key), m.buckets)
    else
      var room :=
        if Size(m.order) >= MAX_TRACKED_IPS then Memory(DropOldest(m.order), m.buckets - {Oldest(m.order)}) else m;
      Memory(Snoc(room.order, key), room.buckets[key := []])
  }

  function Bucket(m: Memory, key: Key): seq<real> {
    if key in m.buckets then m.buckets[key] else []
  }

  function Check(m: Memory, key: Key, now: real, window: real): Memory {
    var touched := Touch(m, key);
    touched.(buckets := touched.buckets[key := PopOld(Bucket(touched, key), now - window) + [now]])
  }

  lemma {:induction false} WithoutElements(ks: Keys, key: Key)
    ensures Elements(Without(ks, key)) == Elements(ks) - {key}
    ensures Distinct(ks) ==> Distinct(Without(ks, key))
    ensures Distinct(ks) ==> Size(Without(ks, key)) == if key in Elements(ks) then Size(ks) - 1 else Size(ks)
    ensures key !in Elements(ks) ==> Without(ks, key) == ks
  {
    if ks.Snoc? {
      WithoutElements(ks.older, key);
    }
  }

  lemma {:induction false} DropElements(ks: Keys)
    requires ks.Snoc? && Distinct(ks)
    ensures Oldest(ks) in Elements(ks)
    ensures Elements(DropOldest(ks)) == Elements(ks) - {Oldest(ks)}
    ensures Distinct(DropOldest(ks)) && Size(DropOldest(ks)) == Size(ks) - 1
  {
    if ks.older.Snoc? {
      DropElements(ks.older);
    }
  }

  lemma TouchKeeps(m: Memory, key: Key)
    requires WellFormed(m)
    ensures WellFormed(Touch(m, key)) && key in Touch(m, key).buckets
  {
    WithoutElements(m.order, key);
    if m.order.Snoc? {
      DropElements(m.order);
    }
  }

  class InMemoryStore {
    var order: Keys
    var buckets: map<Key, seq<real>>

    function Value(): Memory
      reads this
    {
      Memory(order, buckets)
    }

    ghost predicate Valid()
      reads this
    {
      WellFormed(Value())
    }

    constructor ()
      ensures Valid() && Value() == EMPTY
    {
      order, buckets := Nil, map[];
    }

    /** Move the key to the recent end of the dict, or make room and create its bucket. */
    method GetBucket(key: Key) returns (bucket: seq<real>)
      requires Valid()
      modifies this
      ensures Valid() && Value() == Touch(old(Value()), key)
      ensures key in buckets && bucket == buckets[key]
    {
      TouchKeeps(Value(), key);
      if key in buckets {
        order := Snoc(Without(order, key), key);
        return buckets[key];
      }
      if Size(order) >= MAX_TRACKED_IPS {
        buckets := buckets - {Oldest(order)};
        order := DropOldest(order);
      }
      order, buckets := Snoc(order, key), buckets[key := []];
      return [];
    }

    method CheckAndIncrement(key: Key, limit: int, window: real, now: real) returns (limited: bool, count: nat)
      requires Valid()
      modifies this
      ensures Valid() && Value() == Check(old(Value()), key, now, window)
      ensures count == |Bucket(Value(), key)| && limited == (count > limit)
    {
      var bucket := GetBucket(key);
      ghost var whole := bucket;
      while bucket != [] && bucket[0] < now - window
        invariant PopOld(bucket, now - window) == PopOld(whole, now - window)
      {
        bucket := bucket[1..];
      }
      bucket := bucket + [now];
      buckets := buckets[key := bucket];
      count := |bucket|;
      limited := count > limit;
    }
  }

  /** The store after a run. */
  function Run(log: Log, window: real): Memory {
    if log.Start? then EMPTY else Check(Run(log.before, window), log.last.key, log.last.at, window)
  }

  lemma {:induction false} RunWellFormed(log: Log, window: real)
    ensures WellFormed(Run(log, window))
  {
    if log.Then? {
      RunWellFormed(log.before, window);
      TouchKeeps(Run(log.before, window), log.last.key);
    }
  }

  // Eviction.

  /** All keys ever requested, in order of their last request. */
  function Recency(log: Log): Keys {
    if log.Start? then Nil else Snoc(Without(Recency(log.before), log.last.key), log.last.key)
  }

  function Newest(ks: Keys, n: nat): Keys {
    if ks.Nil? || n == 0 then Nil else Snoc(Newest(ks.older, n - 1), ks.newest)
  }

  /** The keys behind `key` in the list. */
  function Behind(ks: Keys, key: Key): set<Key> {
    if ks.Nil? || ks.newest == key then {} else Behind(ks.older, key) + {ks.newest}
  }

  /** The distinct keys requested since the last request for `key`. */
  function Others(log: Log, key: Key): set<Key> {
    if log.Start? || log.last.key == key then {} else Others(log.before, key) + {log.last.key}
  }

  lemma {:induction false} RecencyDistinct(log: Log)
    ensures Distinct(Recency(log))
    ensures forall key :: key in Elements(Recency(log)) <==> Requested(log, key)
  {
    if log.Then? {
      RecencyDistinct(log.before);
      WithoutElements(Recency(log.before), log.last.key);
    }
  }

  lemma {:induction false} NewestSize(ks: Keys, n: nat)
    ensures Size(Newest(ks, n)) == if Size(ks) < n then Size(ks) else n
    ensures Elements(Newest(ks, n)) <= Elements(ks)
    ensures Size(ks) <= n ==> Newest(ks, n) == ks
  {
    if ks.Snoc? && n > 0 {
      NewestSize(ks.older, n - 1);
    }
  }

  lemma {:induction false} NewestDrop(ks: Keys, n: nat)
    requires 0 < n <= Size(ks)
    ensures DropOldest(Newest(ks, n)) == Newest(ks, n - 1)
  {
    NewestSize(ks, n);
    NewestSize(ks.older, n - 1);
    if n > 1 {
      NewestDrop(ks.older, n - 1);
    }
  }

  /** Taking the newest commutes with moving a key to the recent end. */
  lemma {:induction false} NewestWithout(ks: Keys, key: Key, n: nat)
    requires Distinct(ks) && n > 0
    ensures Newest(Without(ks, key), n - 1)
         == if key in Elements(Newest(ks, n)) then Without(Newest(ks, n), key) else Newest(ks, n - 1)
  {
    if ks.Snoc? {
      WithoutElements(ks.older, key);
      NewestSize(ks.older, n - 1);
      WithoutElements(Newest(ks.older, n - 1), key);
      if ks.newest != key && n > 1 {
        NewestWithout(ks.older, key, n - 1);
      }
    }
  }

  /** The dict's order is always the recent end of the recency list: strict LRU. */
  lemma {:induction false} OrderIsRecency(log: Log, window: real)
    ensures Run(log, window).order == Newest(Recency(log), MAX_TRACKED_IPS)
  {
    if log.Then? {
      var recency, m := Recency(log.before), Run(log.before, window);
      OrderIsRecency(log.before, window);
      RunWellFormed(log.before, window);
      RecencyDistinct(log.before);
      NewestWithout(recency, log.last.key, MAX_TRACKED_IPS);
      NewestSize(recency, MAX_TRACKED_IPS);
      NewestSize(recency, MAX_TRACKED_IPS - 1);
      if Size(m.order) >= MAX_TRACKED_IPS {
        NewestDrop(recency, MAX_TRACKED_IPS);
      }
    }
  }

  lemma {:induction false} BehindWithout(ks: Keys, key: Key, moved: Key)
    requires Distinct(ks) && moved != key && key in Elements(ks)
    ensures Behind(Without(ks, moved), key) == Behind(ks, key) - {moved}
  {
    if ks.newest != key {
      BehindWithout(ks.older, key, moved);
    }
  }

  lemma {:induction false} BehindIsOthers(log: Log, key: Key)
    requires Requested(log, key)
    ensures Behind(Recency(log), key) == Others(log, key)
  {
    if log.last.key != key {
      BehindIsOthers(log.before, key);
      RecencyDistinct(log.before);
      BehindWithout(Recency(log.before), key, log.last.key);
    }
  }

  lemma {:induction false} InNewestIff(ks: Keys, key: Key, n: nat)
    requires Distinct(ks) && key in Elements(ks)
    ensures key in Elements(Newest(ks, n)) <==> |Behind(ks, key)| < n
    ensures Behind(ks, key) <= Elements(ks)
  {
    NewestSize(ks, n);
    if n > 0 {
      NewestSize(ks.older, n - 1);
    }
    if ks.newest != key {
      InNewestIff(ks.older, key, if n == 0 then 0 else n - 1);
    }
  }

  /** A key's bucket is held exactly while fewer than MAX_TRACKED_IPS distinct other keys followed its last request. */
  lemma HeldIff(log: Log, window: real, key: Key)
    ensures key in Run(log, window).buckets <==> Requested(log, key) && |Others(log, key)| < 10_000
    ensures |Run(log, window).buckets.Keys| <= 10_000
  {
    OrderIsRecency(log, window);
    RunWellFormed(log, window);
    RecencyDistinct(log);
    ElementsSize(Run(log, window).order);
    NewestSize(Recency(log), MAX_TRACKED_IPS);
    if Requested(log, key) {
      InNewestIff(Recency(log), key, MAX_TRACKED_IPS);
      BehindIsOthers(log, key);
    }
  }

  lemma {:induction false} ElementsSize(ks: Keys)
    ensures |Elements(ks)| <= Size(ks)
  {
    if ks.Snoc? {
      ElementsSize(ks.older);
    }
  }

  /** The key's bucket is in the dict, by HeldIff. */
  predicate Held(log: Log, key: Key) {
    Requested(log, key) && |Others(log, key)| < MAX_TRACKED_IPS
  }

  /** The key has been held at every moment since its first request. */
  predicate AlwaysHeld(log: Log, key: Key) {
    (Requested(log, key) ==> Held(log, key)) && (log.Then? ==> AlwaysHeld(log.before, key))
  }

  /** The bucket a dict without any eviction would hold. */
  function UnboundedBucket(log: Log, window: real, key: Key): seq<real> {
    if log.Start? then []
    else
      var bucket := UnboundedBucket(log.before, window, key);
      if log.last.key == key then PopOld(bucket, log.last.at - window) + [log.last.at] else bucket
  }

  /** One check rewrites its own bucket; every other bucket still held is untouched. */
  lemma CheckBuckets(m: Memory, key: Key, now: real, window: real, other: Key)
    requires other in Check(m, key, now, window).buckets
    ensures other == key ==> Bucket(Check(m, key, now, window), key) == PopOld(Bucket(m, key), now - window) + [now]
    ensures other != key ==> Bucket(Check(m, key, now, window), other) == Bucket(m, other) && other in m.buckets
  {
    var touched := Touch(m, key);
    assert Bucket(touched, key) == Bucket(m, key);
  }

  /** A key held since its first request is answered as by a dict without eviction, whatever became of the others. */
  lemma {:induction false} HeldLikeUnbounded(log: Log, window: real, key: Key)
    requires AlwaysHeld(log, key)
    ensures Bucket(Run(log, window), key) == UnboundedBucket(log, window, key)
  {
    HeldIff(log, window, key);
    if log.Then? {
      HeldLikeUnbounded(log.before, window, key);
      if Requested(log, key) {
        CheckBuckets(Run(log.before, window), log.last.key, log.last.at, window, key);
      } else {
        HeldIff(log.before, window, key);
      }
    }
  }

  predicate Within(log: Log, keys: set<Key>) {
    log.Then? ==> log.last.key in keys && Within(log.before, keys)
  }

  lemma {:induction false} OthersWithin(log: Log, key: Key, keys: set<Key>)
    requires Within(log, keys)
    ensures Others(log, key) <= keys - {key}
  {
    if log.Then? {
      OthersWithin(log.before, key, keys);
    }
  }

  lemma {:induction false} WithinHeld(log: Log, key: Key, keys: set<Key>)
    requires |keys| <= MAX_TRACKED_IPS && Within(log, keys)
    ensures AlwaysHeld(log, key)
    ensures Requested(log, key) ==> key in keys
  {
    OthersWithin(log, key, keys);
    if log.Then? {
      WithinHeld(log.before, key, keys);
    }
    if Requested(log, key) {
      SubsetSize(Others(log, key), keys - {key});
    }
  }

  /** With no more keys than the store tracks, the store is one without eviction, key by key. */
  lemma FewKeysHeld(log: Log, window: real, key: Key, keys: set<Key>)
    requires |keys| <= MAX_TRACKED_IPS && Within(log, keys)
    ensures key in Run(log, window).buckets <==> Requested(log, key)
    ensures Bucket(Run(log, window), key) == UnboundedBucket(log, window, key)
  {
    WithinHeld(log, key, keys);
    HeldIff(log, window, key);
    HeldLikeUnbounded(log, window, key);
  }

  // Counting.

  /** The arrival times for one key since its bucket was last created; none while it is evicted. */
  function Remembered(log: Log, key: Key): seq<real> {
    if log.Start? || !Held(log, key) then []
    else Remembered(log.before, key) + if log.last.key == key then [log.last.at] else []
  }

  /** How many of them are at or after `cutoff`. */
  function SinceRemembered(log: Log, key: Key, cutoff: real): nat {
    if log.Start? || !Held(log, key) then 0
    else SinceRemembered(log.before, key, cutoff) + if log.last.key == key && log.last.at >= cutoff then 1 else 0
  }

  lemma {:induction false} PopTwice(bucket: seq<real>, early: real, late: real)
    requires early <= late
    ensures PopOld(PopOld(bucket, early), late) == PopOld(bucket, late)
  {
    if bucket != [] && bucket[0] < early {
      PopTwice(bucket[1..], early, late);
    }
  }

  lemma {:induction false} PopAppend(bucket: seq<real>, now: real, cutoff: real)
    ensures PopOld(bucket + [now], cutoff)
         == if PopOld(bucket, cutoff) == [] && now < cutoff then [] else PopOld(bucket, cutoff) + [now]
  {
    if bucket == [] {
      assert bucket + [now] == [now];
    } else if bucket[0] < cutoff {
      assert (bucket + [now])[1..] == bucket[1..] + [now];
      PopAppend(bucket[1..], now, cutoff);
    }
  }

  /** The entries at or above the cutoff, wherever they stand. */
  function AtLeast(bucket: seq<real>, cutoff: real): seq<real> {
    if bucket == [] then []
    else
      var last := bucket[|bucket| - 1];
      AtLeast(bucket[..|bucket| - 1], cutoff) + if last >= cutoff then [last] else []
  }

  lemma AtLeastSnoc(bucket: seq<real>, now: real, cutoff: real)
    ensures AtLeast(bucket + [now], cutoff) == AtLeast(bucket, cutoff) + if now >= cutoff then [now] else []
  {
    assert (bucket + [now])[..|bucket|] == bucket;
  }

  /** On an ordered run popping from the left removes exactly the entries below the cutoff. */
  lemma {:induction false} PopCounts(log: Log, key: Key, cutoff: real)
    requires InOrder(log)
    ensures PopOld(Remembered(log, key), cutoff) == AtLeast(Remembered(log, key), cutoff)
    ensures |AtLeast(Remembered(log, key), cutoff)| == SinceRemembered(log, key, cutoff)
    ensures log.Then? && log.last.at < cutoff ==> SinceRemembered(log, key, cutoff) == 0
  {
    if log.Then? {
      PopCounts(log.before, key, cutoff);
      PopAppend(Remembered(log.before, key), log.last.at, cutoff);
      AtLeastSnoc(Remembered(log.before, key), log.last.at, cutoff);
      assert Remembered(log.before, key) + [] == Remembered(log.before, key);
    }
  }

  lemma PopStep(times: seq<real>, early: real, now: real, cutoff: real)
    requires early <= cutoff <= now
    ensures PopOld(PopOld(times, early), cutoff) + [now] == PopOld(times + [now], cutoff)
  {
    PopTwice(times, early, cutoff);
    PopAppend(times, now, cutoff);
  }

  /** The bucket after a check, from the bucket before it. */
  lemma StepBucket(log: Log, window: real, key: Key)
    requires log.Then? && Held(log, key)
    ensures Bucket(Run(log, window), key)
         == if log.last.key == key
            then PopOld(Bucket(Run(log.before, window), key), log.last.at - window) + [log.last.at]
            else Bucket(Run(log.before, window), key)
    ensures log.last.key != key ==> Held(log.before, key)
    ensures !Held(log.before, key) ==> Bucket(Run(log.before, window), key) == []
  {
    HeldIff(log, window, key);
    HeldIff(log.before, window, key);
    CheckBuckets(Run(log.before, window), log.last.key, log.last.at, window, key);
  }

  /** Popping step by step leaves what popping everything remembered at once would leave. */
  lemma {:induction false} BucketIsHistory(log: Log, window: real, key: Key)
    requires InOrder(log) && Held(log, key) && window >= 0.0
    ensures Bucket(Run(log, window), key) == PopOld(Remembered(log, key), LatestOf(log, key) - window)
  {
    var before, last := log.before, log.last;
    StepBucket(log, window, key);
    assert Remembered(before, key) + [] == Remembered(before, key);
    if Held(before, key) {
      BucketIsHistory(before, window, key);
      if last.key == key {
        LatestBounded(before, key);
        PopStep(Remembered(before, key), LatestOf(before, key) - window, last.at, last.at - window);
      }
    } else {
      PopStep([], last.at - window, last.at, last.at - window);
    }
  }

  /** The count the last request of a run is answered with. */
  function LastCount(log: Log, window: real): nat
    requires log.Then?
  {
    |Bucket(Run(log, window), log.last.key)|
  }

  /** In every run the count is the number of requests in the closed window ending now that no eviction forgot. */
  lemma CountIsRemembered(log: Log, window: real)
    requires log.Then? && InOrder(log) && window >= 0.0
    ensures LastCount(log, window) == SinceRemembered(log, log.last.key, log.last.at - window)
  {
    assert Held(log, log.last.key);
    BucketIsHistory(log, window, log.last.key);
    PopCounts(log, log.last.key, log.last.at - window);
  }

  /** Evictions only ever lower the count, and not at all for a key held since its first request. */
  lemma {:induction false} RememberedOfAll(log: Log, key: Key, cutoff: real)
    ensures SinceRemembered(log, key, cutoff) <= Since(log, key, cutoff)
    ensures AlwaysHeld(log, key) ==> SinceRemembered(log, key, cutoff) == Since(log, key, cutoff)
  {
    if log.Then? {
      RememberedOfAll(log.before, key, cutoff);
    }
  }

  /** The limiter refines the log: without eviction the count is the number of requests in the closed window. */
  lemma CountIsLogCount(log: Log, window: real)
    requires log.Then? && InOrder(log) && AlwaysHeld(log, log.last.key) && window >= 0.0
    ensures LastCount(log, window) == Since(log, log.last.key, log.last.at - window)
  {
    CountIsRemembered(log, window);
    RememberedOfAll(log, log.last.key, log.last.at - window);
  }

  /** How many requests for `key` were admitted with from <= at <= to. */
  function Admitted(log: Log, key: Key, window: real, limit: nat, from: real, to: real): nat {
    if log.Start? then 0
    else
      Admitted(log.before, key, window, limit, from, to)
      + if log.last.key == key && from <= log.last.at <= to && LastCount(log, window) <= limit then 1 else 0
  }

  lemma {:induction false} AdmittedAmong(
    log: Log, key: Key, window: real, limit: nat, from: real, to: real, cutoff: real)
    requires cutoff <= from
    ensures Admitted(log, key, window, limit, from, to) <= Since(log, key, cutoff)
  {
    if log.Then? {
      AdmittedAmong(log.before, key, window, limit, from, to, cutoff);
    }
  }

  /** In any run no closed interval as long as the window holds more than `limit` admitted requests. */
  lemma {:induction false} WindowSafe(log: Log, key: Key, window: real, limit: nat, from: real)
    requires InOrder(log) && AlwaysHeld(log, key) && window >= 0.0
    ensures Admitted(log, key, window, limit, from, from + window) <= limit
  {
    if log.Then? {
      WindowSafe(log.before, key, window, limit, from);
      if log.last.key == key && from <= log.last.at <= from + window && LastCount(log, window) <= limit {
        CountIsLogCount(log, window);
        AdmittedAmong(log, key, window, limit, from, from + window, log.last.at - window);
      }
    }
  }
}

/** The Redis store: one sorted set per key, shared by every gateway replica. */
module RedisStore {
  import opened SlidingWindow
  import InMemory

  datatype ZSet = ZSet(members: map<nat, real>, expiry: real)
  type Server = map<Key, ZSet>

  /** What the server still holds under a key at `now`. */
  function Lookup(server: Server, key: Key, now: real): map<nat, real> {
    if key in server && now < server[key].expiry then server[key].members else map[]
  }

  /** ZREMRANGEBYSCORE -inf cutoff. */
  function Younger(members: map<nat, real>, cutoff: real): map<nat, real> {
    map id | id in members && members[id] > cutoff :: members[id]
  }

  /** The transaction: prune, ZADD, EXPIRE window + 1. */
  function Check(server: Server, key: Key, member: nat, now: real, window: real): Server {
    server[key := ZSet(Younger(Lookup(server, key, now), now - window)[member := now], now + (window + 1.0))]
  }

  class Store {
    var server: Server

    constructor ()
      ensures server == map[]
    {
      server := map[];
    }

    /** `member` is the fresh uuid of this request; an unreachable server fails open. */
    method CheckAndIncrement(key: Key, limit: int, window: real, now: real, member: nat, up: bool)
      returns (limited: bool, count: nat)
      modifies this
      ensures !up ==> server == old(server) && !limited && count == 0
      ensures up ==> server == Check(old(server), key, member, now, window)
                     && count == |server[key].members| && limited == (count > limit)
    {
      if !up {
        return false, 0;
      }
      var zset := Younger(Lookup(server, key, now), now - window);
      zset := zset[member := now];
      count := |zset|;
      server := server[key := ZSet(zset, now + (window + 1.0))];
      limited := count > limit;
    }
  }

  /** The log lists transactions in execution order, whichever replica sent them; the position serves as the uuid. */
  function Run(log: Log, window: real): Server {
    if log.Start? then map[]
    else Check(Run(log.before, window), log.last.key, Length(log.before), log.last.at, window)
  }

  /** Every request ever made for the key. */
  function Members(log: Log, key: Key): map<nat, real> {
    if log.Start? then map[]
    else if log.last.key == key then Members(log.before, key)[Length(log.before) := log.last.at]
    else Members(log.before, key)
  }

  lemma {:induction false} MembersBounded(log: Log, key: Key)
    requires InOrder(log)
    ensures forall id :: id in Members(log, key) ==> id < Length(log)
    ensures forall id :: id in Members(log, key) ==> Members(log, key)[id] <= LatestOrZero(log, key)
    ensures !Requested(log, key) ==> Members(log, key) == map[]
  {
    if log.Then? {
      MembersBounded(log.before, key);
      if Requested(log.before, key) {
        LatestBounded(log.before, key);
      }
    }
  }

  function LatestOrZero(log: Log, key: Key): real {
    if Requested(log, key) then LatestOf(log, key) else 0.0
  }

  /** Pruning what the server kept, expired or not, is pruning everything ever sent. */
  lemma PruneWindow(server: Server, key: Key, members: map<nat, real>, latest: real, id: nat, now: real, window: real)
    requires window > 0.0 && latest <= now && id !in members
    requires forall i :: i in members ==> members[i] <= latest
    requires key in server ==> server[key] == ZSet(Younger(members, latest - window), latest + (window + 1.0))
    requires key !in server ==> members == map[]
    ensures Check(server, key, id, now, window)[key]
         == ZSet(Younger(members[id := now], now - window), now + (window + 1.0))
  {
    assert Younger(Lookup(server, key, now), now - window) == Younger(members, now - window);
    assert Younger(members[id := now], now - window) == Younger(members, now - window)[id := now];
  }

  /** A sorted set holds exactly its key's requests younger than one window before the last of them. */
  lemma {:induction false} SetIsWindow(log: Log, window: real, key: Key)
    requires InOrder(log) && window > 0.0
    ensures key in Run(log, window) <==> Requested(log, key)
    ensures Requested(log, key) ==>
              var latest := LatestOf(log, key);
              Run(log, window)[key] == ZSet(Younger(Members(log, key), latest - window), latest + (window + 1.0))
  {
    if log.Then? {
      SetIsWindow(log.before, window, key);
      MembersBounded(log.before, key);
      if log.last.key == key {
        var latest := if Requested(log.before, key) then LatestOf(log.before, key) else log.last.at;
        if Requested(log.before, key) {
          LatestBounded(log.before, key);
        }
        var members, id := Members(log.before, key), Length(log.before);
        PruneWindow(Run(log.before, window), key, members, latest, id, log.last.at, window);
      }
    }
  }

  lemma {:induction false} YoungerCounts(log: Log, key: Key, cutoff: real)
    requires InOrder(log)
    ensures |Younger(Members(log, key), cutoff)| == After(log, key, cutoff)
  {
    if log.Then? {
      YoungerCounts(log.before, key, cutoff);
      MembersBounded(log.before, key);
      var members, id := Members(log.before, key), Length(log.before);
      if log.last.key == key {
        if log.last.at > cutoff {
          assert Younger(members[id := log.last.at], cutoff) == Younger(members, cutoff)[id := log.last.at];
        } else {
          assert Younger(members[id := log.last.at], cutoff) == Younger(members, cutoff);
        }
      }
    }
  }

  /** The count the last request of a run is answered with. */
  function LastCount(log: Log, window: real): nat
    requires log.Then?
  {
    |Run(log, window)[log.last.key].members|
  }

  /** The count is the number of requests in the half-open window; EXPIRE window + 1 never loses one of them. */
  lemma CountIsLogCount(log: Log, window: real)
    requires log.Then? && InOrder(log) && window > 0.0
    ensures LastCount(log, window) == After(log, log.last.key, log.last.at - window)
  {
    SetIsWindow(log, window, log.last.key);
    YoungerCounts(log, log.last.key, log.last.at - window);
  }

  /** How many requests for `key` all replicas together admitted with from < at <= to, or with from <= at < to. */
  function Admitted(log: Log, key: Key, window: real, limit: nat, from: real, to: real, openLeft: bool): nat {
    if log.Start? then 0
    else
      Admitted(log.before, key, window, limit, from, to, openLeft)
      + if log.last.key == key && LastCount(log, window) <= limit
           && (if openLeft then from < log.last.at <= to else from <= log.last.at < to) then 1 else 0
  }

  lemma {:induction false} AdmittedAmong(
    log: Log, key: Key, window: real, limit: nat, from: real, to: real, openLeft: bool, cutoff: real)
    requires if openLeft then cutoff <= from else cutoff < from
    ensures Admitted(log, key, window, limit, from, to, openLeft) <= After(log, key, cutoff)
  {
    if log.Then? {
      AdmittedAmong(log.before, key, window, limit, from, to, openLeft, cutoff);
    }
  }

  /** All replicas together admit at most `limit` requests per key in every window open at one end. */
  lemma {:induction false} WindowSafe(log: Log, key: Key, window: real, limit: nat, from: real, openLeft: bool)
    requires InOrder(log) && window > 0.0
    ensures Admitted(log, key, window, limit, from, from + window, openLeft) <= limit
  {
    if log.Then? {
      var to := from + window;
      WindowSafe(log.before, key, window, limit, from, openLeft);
      if log.last.key == key && LastCount(log, window) <= limit
         && (if openLeft then from < log.last.at <= to else from <= log.last.at < to) {
        CountIsLogCount(log, window);
        AdmittedAmong(log, key, window, limit, from, to, openLeft, log.last.at - window);
      }
    }
  }

  /** How many requests for `key` all replicas together admitted with from <= at <= from + length. */
  function AdmittedClosed(log: Log, key: Key, window: real, limit: nat, from: real, length: real): nat {
    if log.Start? then 0
    else
      AdmittedClosed(log.before, key, window, limit, from, length)
      + if log.last.key == key && LastCount(log, window) <= limit && from <= log.last.at <= from + length then 1 else 0
  }

  lemma {:induction false} ClosedInHalfOpen(log: Log, key: Key, window: real, limit: nat, from: real, length: real)
    requires length < window
    ensures AdmittedClosed(log, key, window, limit, from, length)
         <= Admitted(log, key, window, limit, from, from + window, false)
  {
    if log.Then? {
      ClosedInHalfOpen(log.before, key, window, limit, from, length);
    }
  }

  /** `n` simultaneous requests after `log`. */
  function Burst(log: Log, key: Key, n: nat, at: real): Log {
    if n == 0 then log else Then(Burst(log, key, n - 1, at), Request(key, at))
  }

  lemma OneMoreAdmitted(log: Log, key: Key, n: nat, at: real, window: real, limit: nat)
    requires InOrder(log) && (log.Then? ==> log.last.at <= at) && After(log, key, at - window) == n - 1
    requires window > 0.0 && n <= limit
    ensures LastCount(Then(log, Request(key, at)), window) == n <= limit
  {
    CountIsLogCount(Then(log, Request(key, at)), window);
  }

  /** A burst within the budget is admitted whole once nothing younger than the window is left. */
  lemma {:induction false} BurstAdmitted(
    log: Log, key: Key, n: nat, at: real, window: real, limit: nat, from: real, length: real)
    requires InOrder(log) && (log.Then? ==> log.last.at <= at) && After(log, key, at - window) == 0
    requires window > 0.0 && n <= limit && from <= at <= from + length
    ensures var end := Burst(log, key, n, at);
            && InOrder(end) && (end.Then? ==> end.last.at <= at)
            && After(end, key, at - window) == n
            && AdmittedClosed(end, key, window, limit, from, length)
               == AdmittedClosed(log, key, window, limit, from, length) + n
  {
    if n > 0 {
      BurstAdmitted(log, key, n - 1, at, window, limit, from, length);
      OneMoreAdmitted(Burst(log, key, n - 1, at), key, n, at, window, limit);
    }
  }

  lemma {:induction false} NoneLater(log: Log, key: Key, cutoff: real)
    requires InOrder(log) && (log.Then? ==> log.last.at <= cutoff)
    ensures After(log, key, cutoff) == 0
  {
    if log.Then? {
      NoneLater(log.before, key, cutoff);
    }
  }

  /** Closed at both ends, a window can hold two full budgets: Redis drops the entry standing on its edge. */
  lemma TwoBudgets(key: Key, window: real, limit: nat)
    requires window > 0.0
    ensures var log := Burst(Burst(Start, key, limit, 0.0), key, limit, window);
            InOrder(log) && AdmittedClosed(log, key, window, limit, 0.0, window) == 2 * limit
  {
    var first := Burst(Start, key, limit, 0.0);
    BurstAdmitted(Start, key, limit, 0.0, window, limit, 0.0, window);
    NoneLater(first, key, 0.0);
    BurstAdmitted(first, key, limit, window, window, limit, 0.0, window);
  }

  lemma {:induction false} ClosedGrows(log: Log, key: Key, window: real, limit: nat, from: real, a: real, b: real)
    requires a <= b
    ensures AdmittedClosed(log, key, window, limit, from, a) <= AdmittedClosed(log, key, window, limit, from, b)
  {
    if log.Then? {
      ClosedGrows(log.before, key, window, limit, from, a, b);
    }
  }

  /** The limit holds in every interval closed at both ends if and only if the interval is shorter than the window. */
  lemma ClosedWindowExact(key: Key, window: real, length: real)
    requires window > 0.0
    ensures (forall log, limit, from :: InOrder(log) ==>
               AdmittedClosed(log, key, window, limit, from, length) <= limit)
            <==> length < window
  {
    if length < window {
      forall log, limit, from | InOrder(log)
        ensures AdmittedClosed(log, key, window, limit, from, length) <= limit
      {
        ClosedInHalfOpen(log, key, window, limit, from, length);
        WindowSafe(log, key, window, limit, from, false);
      }
    } else {
      var log := Burst(Burst(Start, key, 1, 0.0), key, 1, window);
      TwoBudgets(key, window, 1);
      ClosedGrows(log, key, window, 1, 0.0, window, length);
      assert AdmittedClosed(log, key, window, 1, 0.0, length) > 1;
    }
  }

  lemma {:induction false} AfterAtMostSince(log: Log, key: Key, cutoff: real)
    ensures After(log, key, cutoff) <= Since(log, key, cutoff)
  {
    if log.Then? {
      AfterAtMostSince(log.before, key, cutoff);
    }
  }

  /** On the same trace, everything the in-memory store admits the Redis store admits too. */
  lemma MemoryIsStricter(log: Log, window: real, limit: nat)
    requires log.Then? && InOrder(log) && InMemory.AlwaysHeld(log, log.last.key) && window > 0.0
    requires InMemory.LastCount(log, window) <= limit
    ensures LastCount(log, window) <= limit
  {
    InMemory.CountIsLogCount(log, window);
    CountIsLogCount(log, window);
    AfterAtMostSince(log, log.last.key, log.last.at - window);
  }
}
