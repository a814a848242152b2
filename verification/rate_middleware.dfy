/** The rate-limiting middleware: two budgets per request, one of two stores, headers. */
module RateMiddleware {
  import opened Wrappers
  import opened SlidingWindow
  import InMemory
  import RedisStore

  datatype Config = Config(
    maxRequests: nat, authMaxRequests: nat, userMaxRequests: nat, window: real, redisConfigured: bool)
  /** The store in use; `requests` numbers the uuid4 members, above every one already on the server. */
  datatype Backend = Local(memory: InMemory.Memory) | Shared(server: RedisStore.Server, requests: nat)
  /** How a Redis call fares; a lost reply has charged the bucket. The in-memory store never fails. */
  datatype Link = Up | Down | ReplyLost

  /** One check_and_increment: when it runs and how its call fares. */
  datatype Call = Call(at: real, link: Link)
  datatype Scope = PerIp | PerUser
  datatype Decision = Exempt | Limited(limit: nat, scope: Scope) | Allowed(limit: nat, remaining: nat, tighter: Scope)

  const EXEMPT_PATHS := {"/health", "/health/ready", "/metrics"}
  const AUTH_PATHS := {"/api/v1/auth/login", "/api/v1/auth/register"}

  function Check(b: Backend, key: Key, now: real, window: real): Backend {
    match b
    case Local(memory) => Local(InMemory.Check(memory, key, now, window))
    case Shared(server, n) => Shared(RedisStore.Check(server, key, n, now, window), n + 1)
  }

  /** What a bucket holds, stale entries included: the count just returned, right after a check of that key. */
  function Held(b: Backend, key: Key): nat {
    match b
    case Local(memory) => |InMemory.Bucket(memory, key)|
    case Shared(server, _) => if key in server then |server[key].members| else 0
  }

  predicate Answered(b: Backend, call: Call) {
    b.Local? || call.link.Up?
  }

  /** The store after one call; a failing call may or may not have reached it. */
  function AfterCall(b: Backend, key: Key, call: Call, window: real): Backend {
    if b.Shared? && call.link.Down? then b else Check(b, key, call.at, window)
  }

  /** The count the call returns: 0 when it fails, which limits nobody. */
  function CountOf(b: Backend, key: Key, call: Call, window: real): nat {
    if Answered(b, call) then Held(AfterCall(b, key, call, window), key) else 0
  }

  function IpKey(path: string, ip: string): Key {
    if path in AUTH_PATHS then AuthIp(ip) else GeneralIp(ip)
  }

  function IpLimit(cfg: Config, path: string): nat {
    if path in AUTH_PATHS then cfg.authMaxRequests else cfg.maxRequests
  }

  /** The answer from the two counts; no user count for an anonymous request. */
  function Decide(cfg: Config, path: string, ipCount: nat, userCount: Option<nat>): Decision {
    var ipLimit := IpLimit(cfg, path);
    var ipOver := ipCount > ipLimit;
    var userOver := userCount.Some? && userCount.value > cfg.userMaxRequests;
    if ipOver || userOver then
      Limited(if ipOver then ipLimit else cfg.userMaxRequests, if ipOver then PerIp else PerUser)
    else
      var ipRemaining := ipLimit - ipCount;
      if userCount.Some? && cfg.userMaxRequests - userCount.value < ipRemaining
      then Allowed(cfg.userMaxRequests, cfg.userMaxRequests - userCount.value, PerUser)
      else Allowed(ipLimit, ipRemaining, PerIp)
  }

  /** The store in use once the first request has resolved it; `redis` is the server with all replicas' entries. */
  function Resolved(store: Option<Backend>, cfg: Config, redisUp: bool, redis: Backend): Backend {
    if store.Some? then store.value
    else if cfg.redisConfigured && redisUp then redis
    else Local(InMemory.EMPTY)
  }

  /** X-RateLimit-Reset for a request arriving at `now`: int() of the clock, which is not negative, plus the window. */
  function ResetAt(now: real, window: real): real {
    now.Floor as real + window
  }

  /** The store and the answer after one authenticated or anonymous request, as Dispatch leaves them. */
  function Charged(
    b: Backend, cfg: Config, path: string, ip: string, user: Option<string>, ipCall: Call, userCall: Call)
    : (Backend, Decision)
  {
    var afterIp := AfterCall(b, IpKey(path, ip), ipCall, cfg.window);
    var ipCount := CountOf(b, IpKey(path, ip), ipCall, cfg.window);
    if user.None? then (afterIp, Decide(cfg, path, ipCount, None))
    else
      var userKey := Key.User(user.value);
      (AfterCall(afterIp, userKey, userCall, cfg.window),
       Decide(cfg, path, ipCount, Some(CountOf(afterIp, userKey, userCall, cfg.window))))
  }

  class RateLimiterMiddleware {
    const cfg: Config
    var store: Option<Backend>

    constructor (cfg: Config)
      ensures this.cfg == cfg && store == None
    {
      this.cfg := cfg;
      store := None;
    }

    /** Connect on the first request; without Redis fall back to memory for good. */
    method GetStore(redisUp: bool, redis: Backend) returns (b: Backend)
      requires redis.Shared?
      modifies this
      ensures store == Some(b) && b == Resolved(old(store), cfg, redisUp, redis)
      ensures old(store).Some? ==> store == old(store)
      ensures old(store).None? ==>
                b == if cfg.redisConfigured && redisUp then redis else Local(InMemory.Run(Start, cfg.window))
    {
      if store.Some? {
        return store.value;
      }
      b := if cfg.redisConfigured && redisUp then redis else Local(InMemory.EMPTY);
      store := Some(b);
    }

    /** check_and_increment on whichever store is in use; a failing Redis call fails open with count 0. */
    method CheckAndIncrement(key: Key, limit: nat, call: Call) returns (over: bool, count: nat)
      requires store.Some?
      modifies this
      ensures store == Some(AfterCall(old(store).value, key, call, cfg.window))
      ensures count == CountOf(old(store).value, key, call, cfg.window) && over == (count > limit)
    {
      if store.value.Shared? && call.link.Down? {
        return false, 0;
      }
      var failed := !Answered(store.value, call);
      store := Some(Check(store.value, key, call.at, cfg.window));
      if failed {
        return false, 0;
      }
      count := Held(store.value, key);
      over := count > limit;
    }

    /** Both budgets are charged before either verdict is looked at; the ping and each call fare on their own. */
    method Dispatch(
      path: string, ip: string, user: Option<string>, arrived: real, pingUp: bool, redis: Backend,
      ipCall: Call, userCall: Call) returns (d: Decision, reset: Option<real>)
      requires redis.Shared?
      modifies this
      ensures var exempt := path == "/health" || path == "/health/ready" || path == "/metrics";
              if exempt then d == Exempt && store == old(store) && reset == None
              else
                var known := if user.Some? && user.value != "" then user else None;
                var (after, decision) :=
                  Charged(Resolved(old(store), cfg, pingUp, redis), cfg, path, ip, known, ipCall, userCall);
                store == Some(after) && d == decision && reset == Some(ResetAt(arrived, cfg.window))
    {
      if path in EXEMPT_PATHS {
        return Exempt, None;
      }
      reset := Some(arrived.Floor as real + cfg.window);
      var b := GetStore(pingUp, redis);
      var ipOver, ipCount := CheckAndIncrement(IpKey(path, ip), IpLimit(cfg, path), ipCall);
      var userCount: Option<nat> := None;
      if user.Some? && user.value != "" {
        var userOver, count := CheckAndIncrement(Key.User(user.value), cfg.userMaxRequests, userCall);
        userCount := Some(count);
      }
      d := Decide(cfg, path, ipCount, userCount);
    }
  }

  function Min(a: int, b: int): int { if a < b then a else b }

  /**
   Limited exactly when an active budget is exceeded, the address blamed first; otherwise the tighter of the
   two budgets is reported with its limit and what is left of it, never negative.
   */
  lemma RemainingIsMin(cfg: Config, path: string, ipCount: nat, userCount: Option<nat>)
    ensures var d, ipLimit := Decide(cfg, path, ipCount, userCount), IpLimit(cfg, path);
            var ipLeft := ipLimit - ipCount;
            var userLeft := if userCount.Some? then cfg.userMaxRequests - userCount.value else ipLeft;
            if ipLeft < 0 then d == Limited(ipLimit, PerIp)
            else if userLeft < 0 then d == Limited(cfg.userMaxRequests, PerUser)
            else if userLeft < ipLeft then d == Allowed(cfg.userMaxRequests, userLeft, PerUser)
            else d == Allowed(ipLimit, ipLeft, PerIp)
  {
  }

  /** Login and registration have an address budget of their own; every other path shares the general one. */
  lemma Budgets(cfg: Config, path: string, ip: string)
    ensures var auth := path == "/api/v1/auth/login" || path == "/api/v1/auth/register";
            && IpKey(path, ip) == (if auth then AuthIp(ip) else GeneralIp(ip))
            && IpLimit(cfg, path) == (if auth then cfg.authMaxRequests else cfg.maxRequests)
  {
  }

  /** A budget whose call failed limits nobody: only an answered call can refuse, each for its own bucket. */
  lemma OutageAdmits(
    b: Backend, cfg: Config, path: string, ip: string, user: Option<string>, ipCall: Call, userCall: Call)
    ensures var d := Charged(b, cfg, path, ip, user, ipCall, userCall).1;
            && (d.Limited? && d.scope.PerIp? ==> Answered(b, ipCall))
            && (d.Limited? && d.scope.PerUser? ==> user.Some? && Answered(b, userCall))
  {
  }

  /** Later checks of anybody's buckets, the latest outermost, in the order the store sees them. */
  datatype Traffic = Quiet | Checked(before: Traffic, key: Key, call: Call)

  function Later(b: Backend, t: Traffic, window: real): Backend {
    if t.Quiet? then b else AfterCall(Later(b, t.before, window), t.key, t.call, window)
  }

  /** The count the last check of `t` is answered with. */
  function LastCount(b: Backend, t: Traffic, window: real): nat
    requires t.Checked?
  {
    CountOf(Later(b, t.before, window), t.key, t.call, window)
  }

  function Touches(t: Traffic, key: Key): nat {
    if t.Quiet? then 0 else Touches(t.before, key) + if t.key == key then 1 else 0
  }

  /** `part` is the traffic up to some moment of `t`. */
  predicate MomentOf(part: Traffic, t: Traffic) {
    part == t || (t.Checked? && MomentOf(part, t.before))
  }

  lemma {:induction false} PopShrinks(bucket: seq<real>, cutoff: real)
    ensures |InMemory.PopOld(bucket, cutoff)| <= |bucket|
  {
    if bucket != [] && bucket[0] < cutoff {
      PopShrinks(bucket[1..], cutoff);
    }
  }

  lemma YoungerShrinks(members: map<nat, real>, cutoff: real)
    ensures |RedisStore.Younger(members, cutoff)| <= |members|
  {
    var younger := RedisStore.Younger(members, cutoff);
    assert members.Keys == younger.Keys + (members.Keys - younger.Keys);
    assert |younger| == |younger.Keys| && |members| == |members.Keys|;
  }

  /** A check adds at most one entry to its own bucket and none to any other, evicted or not. */
  lemma CheckGrows(b: Backend, key: Key, now: real, window: real, other: Key)
    ensures Held(Check(b, key, now, window), other) <= Held(b, other) + if key == other then 1 else 0
  {
    match b
    case Local(m) =>
      if other in InMemory.Check(m, key, now, window).buckets {
        InMemory.CheckBuckets(m, key, now, window, other);
        PopShrinks(InMemory.Bucket(m, key), now - window);
      }
    case Shared(server, n) =>
      if other == key {
        YoungerShrinks(RedisStore.Lookup(server, key, now), now - window);
      }
  }

  lemma CallGrows(b: Backend, key: Key, call: Call, window: real, other: Key)
    ensures Held(AfterCall(b, key, call, window), other) <= Held(b, other) + if key == other then 1 else 0
    ensures CountOf(b, key, call, window) <= Held(b, key) + 1
    ensures AfterCall(b, key, call, window).Local? <==> b.Local?
  {
    CheckGrows(b, key, call.at, window, other);
    CheckGrows(b, key, call.at, window, key);
  }

  lemma {:induction false} LaterGrows(b: Backend, t: Traffic, window: real, key: Key)
    ensures Held(Later(b, t, window), key) <= Held(b, key) + Touches(t, key)
  {
    if t.Checked? {
      LaterGrows(b, t.before, window, key);
      CallGrows(Later(b, t.before, window), t.key, t.call, window, key);
    }
  }

  lemma {:induction false} MomentGrows(b: Backend, part: Traffic, t: Traffic, window: real)
    requires MomentOf(part, t) && part.Checked?
    ensures LastCount(b, part, window) <= Held(b, part.key) + Touches(t, part.key)
  {
    if part == t {
      LaterGrows(b, t.before, window, t.key);
      CallGrows(Later(b, t.before, window), t.key, t.call, window, t.key);
    } else {
      MomentGrows(b, part, t.before, window);
    }
  }

  /** An answered, admitted request leaves at least what it reports in either of its buckets. */
  lemma RoomLeft(b: Backend, cfg: Config, path: string, ip: string, user: Option<string>, ipCall: Call, userCall: Call)
    requires Answered(b, ipCall) && (user.Some? ==> Answered(b, userCall))
    requires Charged(b, cfg, path, ip, user, ipCall, userCall).1.Allowed?
    ensures var (after, d) := Charged(b, cfg, path, ip, user, ipCall, userCall);
            && Held(after, IpKey(path, ip)) + d.remaining <= IpLimit(cfg, path)
            && (user.Some? ==> Held(after, Key.User(user.value)) + d.remaining <= cfg.userMaxRequests)
  {
    if user.Some? {
      var afterIp := AfterCall(b, IpKey(path, ip), ipCall, cfg.window);
      CallGrows(b, IpKey(path, ip), ipCall, cfg.window, IpKey(path, ip));
      CallGrows(afterIp, Key.User(user.value), userCall, cfg.window, IpKey(path, ip));
    }
  }

  /**
   Remaining is a promise: after an answer reporting r, whatever happens in other buckets, whichever calls fail
   and however the store evicts, as long as each of the two buckets is checked at most r times every request of
   that path, address and user is allowed, even when other requests run between its two checks.
   */
  lemma RemainingIsPromise(
    b: Backend, cfg: Config, path: string, ip: string, user: Option<string>, ipCall: Call, userCall: Call,
    t: Traffic, ipAt: Traffic, userAt: Traffic)
    requires Answered(b, ipCall) && (user.Some? ==> Answered(b, userCall))
    requires var d := Charged(b, cfg, path, ip, user, ipCall, userCall).1;
             && d.Allowed? && Touches(t, IpKey(path, ip)) <= d.remaining
             && (user.Some? ==> Touches(t, Key.User(user.value)) <= d.remaining)
    requires MomentOf(ipAt, t) && ipAt.Checked? && ipAt.key == IpKey(path, ip)
    requires user.Some? ==> MomentOf(userAt, t) && userAt.Checked? && userAt.key == Key.User(user.value)
    ensures var after := Charged(b, cfg, path, ip, user, ipCall, userCall).0;
            Decide(cfg, path, LastCount(after, ipAt, cfg.window),
                   if user.Some? then Some(LastCount(after, userAt, cfg.window)) else None).Allowed?
  {
    var after := Charged(b, cfg, path, ip, user, ipCall, userCall).0;
    RoomLeft(b, cfg, path, ip, user, ipCall, userCall);
    MomentGrows(after, ipAt, t, cfg.window);
    if user.Some? {
      MomentGrows(after, userAt, t, cfg.window);
    }
  }

  /** The client's next requests in order, each after some traffic of others. */
  datatype Visits = NoVisit | Visit(before: Visits, others: Traffic, ipCall: Call, userCall: Call)

  function Count(v: Visits): nat {
    if v.NoVisit? then 0 else Count(v.before) + 1
  }

  predicate Elsewhere(v: Visits, ipKey: Key, user: Option<string>) {
    v.Visit? ==>
      && Touches(v.others, ipKey) == 0
      && (user.Some? ==> Touches(v.others, Key.User(user.value)) == 0)
      && Elsewhere(v.before, ipKey, user)
  }

  /** The store just before the last of the visits. */
  function Arriving(b: Backend, cfg: Config, path: string, ip: string, user: Option<string>, v: Visits): Backend
    requires v.Visit?
    decreases v, 0
  {
    Later(AfterVisits(b, cfg, path, ip, user, v.before), v.others, cfg.window)
  }

  function AfterVisits(b: Backend, cfg: Config, path: string, ip: string, user: Option<string>, v: Visits): Backend
    decreases v, 1
  {
    if v.NoVisit? then b
    else Charged(Arriving(b, cfg, path, ip, user, v), cfg, path, ip, user, v.ipCall, v.userCall).0
  }

  lemma {:induction false} VisitsGrow(
    b: Backend, cfg: Config, path: string, ip: string, user: Option<string>, v: Visits, key: Key)
    requires Elsewhere(v, IpKey(path, ip), user)
    requires key == IpKey(path, ip) || (user.Some? && key == Key.User(user.value))
    ensures Held(AfterVisits(b, cfg, path, ip, user, v), key) <= Held(b, key) + Count(v)
    ensures v.Visit? ==> Held(Arriving(b, cfg, path, ip, user, v), key) < Held(b, key) + Count(v)
  {
    if v.Visit? {
      VisitsGrow(b, cfg, path, ip, user, v.before, key);
      LaterGrows(AfterVisits(b, cfg, path, ip, user, v.before), v.others, cfg.window, key);
      var arriving := Arriving(b, cfg, path, ip, user, v);
      CallGrows(arriving, IpKey(path, ip), v.ipCall, cfg.window, key);
      if user.Some? {
        var afterIp := AfterCall(arriving, IpKey(path, ip), v.ipCall, cfg.window);
        CallGrows(afterIp, Key.User(user.value), v.userCall, cfg.window, key);
      }
    }
  }

  /** So of the client's next requests the first r are all allowed, whatever others do to other buckets meanwhile. */
  lemma NextRequestsAllowed(
    b: Backend, cfg: Config, path: string, ip: string, user: Option<string>, ipCall: Call, userCall: Call, v: Visits)
    requires Answered(b, ipCall) && (user.Some? ==> Answered(b, userCall))
    requires var d := Charged(b, cfg, path, ip, user, ipCall, userCall).1; d.Allowed? && Count(v) <= d.remaining
    requires v.Visit? && Elsewhere(v, IpKey(path, ip), user)
    ensures var after := Charged(b, cfg, path, ip, user, ipCall, userCall).0;
            Charged(Arriving(after, cfg, path, ip, user, v), cfg, path, ip, user, v.ipCall, v.userCall).1.Allowed?
  {
    var after := Charged(b, cfg, path, ip, user, ipCall, userCall).0;
    var arriving := Arriving(after, cfg, path, ip, user, v);
    RoomLeft(b, cfg, path, ip, user, ipCall, userCall);
    VisitsGrow(after, cfg, path, ip, user, v, IpKey(path, ip));
    CallGrows(arriving, IpKey(path, ip), v.ipCall, cfg.window, IpKey(path, ip));
    if user.Some? {
      var userKey := Key.User(user.value);
      VisitsGrow(after, cfg, path, ip, user, v, userKey);
      CallGrows(arriving, IpKey(path, ip), v.ipCall, cfg.window, userKey);
      CallGrows(AfterCall(arriving, IpKey(path, ip), v.ipCall, cfg.window), userKey, v.userCall, cfg.window, userKey);
    }
  }

  // The promise needs an answer.

  /** A store that has seen exactly this log. */
  function StoreAfter(local: bool, log: Log, window: real): Backend {
    if local then Local(InMemory.Run(log, window)) else Shared(RedisStore.Run(log, window), Length(log))
  }

  /** The log after a call: a call that never arrives leaves no entry. */
  function Recorded(local: bool, log: Log, key: Key, call: Call): Log {
    if !local && call.link.Down? then log else Then(log, SlidingWindow.Request(key, call.at))
  }

  lemma CallRecorded(local: bool, log: Log, key: Key, call: Call, window: real)
    ensures AfterCall(StoreAfter(local, log, window), key, call, window)
         == StoreAfter(local, Recorded(local, log, key, call), window)
  {
  }

  /** What a call on the shared server is answered with: one more than what the window held. */
  function CountOn(log: Log, key: Key, call: Call, window: real): nat {
    if call.link.Up? then After(log, key, call.at - window) + 1 else 0
  }

  lemma CountFromLog(log: Log, key: Key, call: Call, window: real)
    requires window > 0.0 && InOrder(Then(log, SlidingWindow.Request(key, call.at)))
    ensures CountOf(StoreAfter(false, log, window), key, call, window) == CountOn(log, key, call, window)
  {
    RedisStore.CountIsLogCount(Then(log, SlidingWindow.Request(key, call.at)), window);
  }

  /** One request on the shared server, from the log alone: the log after it, and the answer. */
  function OnLog(
    cfg: Config, path: string, ip: string, user: Option<string>, log: Log, ipCall: Call, userCall: Call)
    : (Log, Decision)
  {
    var afterIp := Recorded(false, log, IpKey(path, ip), ipCall);
    var ipCount := CountOn(log, IpKey(path, ip), ipCall, cfg.window);
    if user.None? then (afterIp, Decide(cfg, path, ipCount, None))
    else
      var userKey := Key.User(user.value);
      (Recorded(false, afterIp, userKey, userCall),
       Decide(cfg, path, ipCount, Some(CountOn(afterIp, userKey, userCall, cfg.window))))
  }

  lemma ChargedOnLog(
    cfg: Config, path: string, ip: string, user: Option<string>, log: Log, ipCall: Call, userCall: Call)
    requires cfg.window > 0.0 && InOrder(log) && (log.Then? ==> log.last.at <= ipCall.at) && ipCall.at <= userCall.at
    ensures var (after, d) := OnLog(cfg, path, ip, user, log, ipCall, userCall);
            && Charged(StoreAfter(false, log, cfg.window), cfg, path, ip, user, ipCall, userCall)
               == (StoreAfter(false, after, cfg.window), d)
            && InOrder(after) && (after.Then? ==> after.last.at <= userCall.at)
  {
    var ipKey := IpKey(path, ip);
    CountFromLog(log, ipKey, ipCall, cfg.window);
    CallRecorded(false, log, ipKey, ipCall, cfg.window);
    if user.Some? {
      var afterIp := Recorded(false, log, ipKey, ipCall);
      CountFromLog(afterIp, Key.User(user.value), userCall, cfg.window);
      CallRecorded(false, afterIp, Key.User(user.value), userCall, cfg.window);
    }
  }

  /** On the in-memory store: the remembered requests in the closed window, this one included. */
  function CountInMemory(log: Log, key: Key, at: real, window: real): nat {
    InMemory.SinceRemembered(Then(log, SlidingWindow.Request(key, at)), key, at - window)
  }

  lemma MemoryCount(log: Log, key: Key, call: Call, window: real)
    requires InOrder(Then(log, SlidingWindow.Request(key, call.at))) && window >= 0.0
    ensures CountOf(StoreAfter(true, log, window), key, call, window) == CountInMemory(log, key, call.at, window)
  {
    InMemory.CountIsRemembered(Then(log, SlidingWindow.Request(key, call.at)), window);
  }

  lemma LimitedIff(cfg: Config, path: string, ipCount: nat, userCount: Option<nat>)
    ensures Decide(cfg, path, ipCount, userCount).Limited?
       <==> ipCount > IpLimit(cfg, path) || (userCount.Some? && userCount.value > cfg.userMaxRequests)
  {
    RemainingIsMin(cfg, path, ipCount, userCount);
  }

  /**
   On the in-memory store, after any ordered run: an anonymous request is refused exactly when the remembered
   requests of its address in the closed window, itself included, exceed the limit; refused or not, it is recorded.
   */
  lemma MemoryDecidesAnonymous(cfg: Config, path: string, ip: string, log: Log, call: Call, unused: Call)
    requires cfg.window >= 0.0 && InOrder(log) && (log.Then? ==> log.last.at <= call.at)
    ensures var ipKey := IpKey(path, ip);
            var (b, d) := Charged(StoreAfter(true, log, cfg.window), cfg, path, ip, None, call, unused);
            && b == StoreAfter(true, Then(log, SlidingWindow.Request(ipKey, call.at)), cfg.window)
            && (d.Limited? <==> CountInMemory(log, ipKey, call.at, cfg.window) > IpLimit(cfg, path))
  {
    MemoryCount(log, IpKey(path, ip), call, cfg.window);
    CallRecorded(true, log, IpKey(path, ip), call, cfg.window);
    LimitedIff(cfg, path, CountInMemory(log, IpKey(path, ip), call.at, cfg.window), None);
  }

  /** An authenticated request is refused exactly when one of its two budgets is exceeded, and recorded under both. */
  lemma MemoryDecides(cfg: Config, path: string, ip: string, user: string, log: Log, ipCall: Call, userCall: Call)
    requires cfg.window >= 0.0 && InOrder(log) && (log.Then? ==> log.last.at <= ipCall.at) && ipCall.at <= userCall.at
    ensures var ipKey, userKey := IpKey(path, ip), Key.User(user);
            var afterIp := Then(log, SlidingWindow.Request(ipKey, ipCall.at));
            var (b, d) := Charged(StoreAfter(true, log, cfg.window), cfg, path, ip, Some(user), ipCall, userCall);
            && b == StoreAfter(true, Then(afterIp, SlidingWindow.Request(userKey, userCall.at)), cfg.window)
            && (d.Limited? <==>
                  || CountInMemory(log, ipKey, ipCall.at, cfg.window) > IpLimit(cfg, path)
                  || CountInMemory(afterIp, userKey, userCall.at, cfg.window) > cfg.userMaxRequests)
  {
    var ipKey, userKey := IpKey(path, ip), Key.User(user);
    var afterIp := Then(log, SlidingWindow.Request(ipKey, ipCall.at));
    MemoryCount(log, ipKey, ipCall, cfg.window);
    CallRecorded(true, log, ipKey, ipCall, cfg.window);
    MemoryCount(afterIp, userKey, userCall, cfg.window);
    CallRecorded(true, afterIp, userKey, userCall, cfg.window);
    LimitedIff(cfg, path, CountInMemory(log, ipKey, ipCall.at, cfg.window),
               Some(CountInMemory(afterIp, userKey, userCall.at, cfg.window)));
  }

  lemma LimitedOnLog(
    cfg: Config, path: string, ip: string, user: Option<string>, log: Log, ipCall: Call, userCall: Call)
    ensures var ipKey := IpKey(path, ip);
            var afterIp := if ipCall.link.Down? then log else Then(log, SlidingWindow.Request(ipKey, ipCall.at));
            OnLog(cfg, path, ip, user, log, ipCall, userCall).1.Limited?
            <==> || (ipCall.link.Up? && After(log, ipKey, ipCall.at - cfg.window) >= IpLimit(cfg, path))
                 || (user.Some? && userCall.link.Up?
                     && After(afterIp, Key.User(user.value), userCall.at - cfg.window) >= cfg.userMaxRequests)
  {
    var ipKey := IpKey(path, ip);
    var afterIp := Recorded(false, log, ipKey, ipCall);
    LimitedIff(cfg, path, CountOn(log, ipKey, ipCall, cfg.window),
               if user.None? then None else Some(CountOn(afterIp, Key.User(user.value), userCall, cfg.window)));
  }

  /**
   On Redis, after any ordered run of all replicas: a request is refused exactly when an answered call finds
   the limit reached in its budget's half-open window; a call that never arrives records nothing.
   */
  lemma RedisDecides(
    cfg: Config, path: string, ip: string, user: Option<string>, log: Log, ipCall: Call, userCall: Call)
    requires cfg.window > 0.0 && InOrder(log) && (log.Then? ==> log.last.at <= ipCall.at) && ipCall.at <= userCall.at
    ensures var ipKey := IpKey(path, ip);
            var afterIp := if ipCall.link.Down? then log else Then(log, SlidingWindow.Request(ipKey, ipCall.at));
            Charged(StoreAfter(false, log, cfg.window), cfg, path, ip, user, ipCall, userCall).1.Limited?
            <==> || (ipCall.link.Up? && After(log, ipKey, ipCall.at - cfg.window) >= IpLimit(cfg, path))
                 || (user.Some? && userCall.link.Up?
                     && After(afterIp, Key.User(user.value), userCall.at - cfg.window) >= cfg.userMaxRequests)
  {
    ChargedOnLog(cfg, path, ip, user, log, ipCall, userCall);
    LimitedOnLog(cfg, path, ip, user, log, ipCall, userCall);
  }

  /** The request after one that reports a remainder, both on the shared server: is it allowed? */
  predicate NextAllowed(
    cfg: Config, path: string, ip: string, user: Option<string>, ipLink: Link, userLink: Link,
    log: Log, first: real, next: real)
  {
    var (b, d) := Charged(StoreAfter(false, log, cfg.window), cfg, path, ip, user,
                          Call(first, ipLink), Call(first, userLink));
    d.Allowed? && d.remaining >= 1 ==>
      Charged(b, cfg, path, ip, user, Call(next, Up), Call(next, Up)).1.Allowed?
  }

  /** Whatever the server has seen, the remainder reported over these links covers the client's next request. */
  ghost predicate PromiseKept(
    cfg: Config, path: string, ip: string, user: Option<string>, ipLink: Link, userLink: Link)
  {
    forall log, first, next :: InOrder(log) && (log.Then? ==> log.last.at <= first) && first <= next ==>
      NextAllowed(cfg, path, ip, user, ipLink, userLink, log, first, next)
  }

  /** The most a request over these links can report: an answered call has counted the request itself. */
  function BestRemainder(cfg: Config, path: string, user: Option<string>, ipLink: Link, userLink: Link): int {
    var ipBest := IpLimit(cfg, path) - if ipLink.Up? then 1 else 0;
    if user.None? then ipBest else Min(ipBest, cfg.userMaxRequests - if userLink.Up? then 1 else 0)
  }

  lemma AnsweredPromise(
    cfg: Config, path: string, ip: string, user: Option<string>, userLink: Link, log: Log, first: real, next: real)
    requires user.Some? ==> userLink.Up?
    ensures NextAllowed(cfg, path, ip, user, Up, userLink, log, first, next)
  {
    var b := StoreAfter(false, log, cfg.window);
    var ipCall, userCall := Call(first, Up), Call(first, userLink);
    var d := Charged(b, cfg, path, ip, user, ipCall, userCall).1;
    if d.Allowed? && d.remaining >= 1 {
      var v := Visit(NoVisit, Quiet, Call(next, Up), Call(next, Up));
      assert Count(v) == 1 && Count(v.before) == 0;
      NextRequestsAllowed(b, cfg, path, ip, user, ipCall, userCall, v);
    }
  }

  predicate NextOnLog(
    cfg: Config, path: string, ip: string, user: Option<string>, ipLink: Link, userLink: Link,
    log: Log, first: real, next: real)
  {
    var (after, d) := OnLog(cfg, path, ip, user, log, Call(first, ipLink), Call(first, userLink));
    d.Allowed? && d.remaining >= 1 ==>
      OnLog(cfg, path, ip, user, after, Call(next, Up), Call(next, Up)).1.Allowed?
  }

  lemma NextFromLog(
    cfg: Config, path: string, ip: string, user: Option<string>, ipLink: Link, userLink: Link,
    log: Log, first: real, next: real)
    requires cfg.window > 0.0 && InOrder(log) && (log.Then? ==> log.last.at <= first) && first <= next
    ensures NextAllowed(cfg, path, ip, user, ipLink, userLink, log, first, next)
       <==> NextOnLog(cfg, path, ip, user, ipLink, userLink, log, first, next)
  {
    var ipCall, userCall := Call(first, ipLink), Call(first, userLink);
    ChargedOnLog(cfg, path, ip, user, log, ipCall, userCall);
    var after := OnLog(cfg, path, ip, user, log, ipCall, userCall).0;
    ChargedOnLog(cfg, path, ip, user, after, Call(next, Up), Call(next, Up));
  }

  /** With nothing to report there is nothing to break. */
  lemma NothingPromised(
    cfg: Config, path: string, ip: string, user: Option<string>, ipLink: Link, userLink: Link,
    log: Log, first: real, next: real)
    requires BestRemainder(cfg, path, user, ipLink, userLink) < 1
    ensures NextOnLog(cfg, path, ip, user, ipLink, userLink, log, first, next)
  {
    var d := OnLog(cfg, path, ip, user, log, Call(first, ipLink), Call(first, userLink)).1;
    assert !d.Allowed? || d.remaining < 1;
  }

  lemma {:induction false} BurstCounts(key: Key, n: nat, other: Key, cutoff: real)
    requires cutoff < 0.0
    ensures var log := RedisStore.Burst(Start, key, n, 0.0);
            && InOrder(log) && (log.Then? ==> log.last.at == 0.0)
            && After(log, other, cutoff) == if other == key then n else 0
  {
    if n > 0 {
      BurstCounts(key, n - 1, other, cutoff);
    }
  }

  lemma RecordedCounts(log: Log, key: Key, call: Call, other: Key, cutoff: real)
    ensures After(Recorded(false, log, key, call), other, cutoff) >= After(log, other, cutoff)
    ensures other != key ==> After(Recorded(false, log, key, call), other, cutoff) == After(log, other, cutoff)
  {
  }

  /** A full address bucket behind a failed call: the whole budget is reported, and the next request is refused. */
  lemma FailedIp(cfg: Config, path: string, ip: string, user: Option<string>, ipLink: Link, userLink: Link)
    requires cfg.window > 0.0 && BestRemainder(cfg, path, user, ipLink, userLink) >= 1 && !ipLink.Up?
    ensures var log := RedisStore.Burst(Start, IpKey(path, ip), IpLimit(cfg, path), 0.0);
            !NextOnLog(cfg, path, ip, user, ipLink, userLink, log, 0.0, 0.0)
  {
    var ipKey, n, cutoff := IpKey(path, ip), IpLimit(cfg, path), 0.0 - cfg.window;
    var log := RedisStore.Burst(Start, ipKey, n, 0.0);
    BurstCounts(ipKey, n, ipKey, cutoff);
    var afterIp := Recorded(false, log, ipKey, Call(0.0, ipLink));
    RecordedCounts(log, ipKey, Call(0.0, ipLink), ipKey, cutoff);
    if user.Some? {
      var userKey := Key.User(user.value);
      BurstCounts(ipKey, n, userKey, cutoff);
      RecordedCounts(log, ipKey, Call(0.0, ipLink), userKey, cutoff);
      RecordedCounts(afterIp, userKey, Call(0.0, userLink), ipKey, cutoff);
    }
  }

  /** The same for the user's bucket, when only that call fails. */
  lemma FailedUser(cfg: Config, path: string, ip: string, user: string, userLink: Link)
    requires cfg.window > 0.0 && BestRemainder(cfg, path, Some(user), Up, userLink) >= 1 && !userLink.Up?
    ensures var log := RedisStore.Burst(Start, Key.User(user), cfg.userMaxRequests, 0.0);
            !NextOnLog(cfg, path, ip, Some(user), Up, userLink, log, 0.0, 0.0)
  {
    var ipKey, userKey, n, cutoff := IpKey(path, ip), Key.User(user), cfg.userMaxRequests, 0.0 - cfg.window;
    var log := RedisStore.Burst(Start, userKey, n, 0.0);
    BurstCounts(userKey, n, ipKey, cutoff);
    BurstCounts(userKey, n, userKey, cutoff);
    var afterIp := Recorded(false, log, ipKey, Call(0.0, Up));
    var after := Recorded(false, afterIp, userKey, Call(0.0, userLink));
    RecordedCounts(log, ipKey, Call(0.0, Up), userKey, cutoff);
    RecordedCounts(afterIp, userKey, Call(0.0, userLink), userKey, cutoff);
    RecordedCounts(after, ipKey, Call(0.0, Up), userKey, cutoff);
  }

  lemma FailedPromise(cfg: Config, path: string, ip: string, user: Option<string>, ipLink: Link, userLink: Link)
    requires cfg.window > 0.0 && BestRemainder(cfg, path, user, ipLink, userLink) >= 1
    requires !ipLink.Up? || (user.Some? && !userLink.Up?)
    ensures !PromiseKept(cfg, path, ip, user, ipLink, userLink)
  {
    var key, n := if !ipLink.Up? then IpKey(path, ip) else Key.User(user.value),
                  if !ipLink.Up? then IpLimit(cfg, path) else cfg.userMaxRequests;
    var log := RedisStore.Burst(Start, key, n, 0.0);
    if !ipLink.Up? {
      FailedIp(cfg, path, ip, user, ipLink, userLink);
    } else {
      FailedUser(cfg, path, ip, user.value, userLink);
    }
    BurstCounts(key, n, key, 0.0 - cfg.window);
    NextFromLog(cfg, path, ip, user, ipLink, userLink, log, 0.0, 0.0);
    assert !NextAllowed(cfg, path, ip, user, ipLink, userLink, log, 0.0, 0.0);
  }

  /**
   On the shared server a reported remainder is a promise if and only if every call of the request that
   reports it was answered, or its links leave no remainder to report.
   */
  lemma PromiseExact(cfg: Config, path: string, ip: string, user: Option<string>, ipLink: Link, userLink: Link)
    requires cfg.window > 0.0
    ensures PromiseKept(cfg, path, ip, user, ipLink, userLink)
       <==> || (ipLink.Up? && (user.Some? ==> userLink.Up?))
            || BestRemainder(cfg, path, user, ipLink, userLink) < 1
  {
    if ipLink.Up? && (user.Some? ==> userLink.Up?) {
      forall log, first, next
        ensures NextAllowed(cfg, path, ip, user, ipLink, userLink, log, first, next)
      {
        AnsweredPromise(cfg, path, ip, user, userLink, log, first, next);
      }
    } else if BestRemainder(cfg, path, user, ipLink, userLink) < 1 {
      forall log, first: real, next: real | InOrder(log) && (log.Then? ==> log.last.at <= first) && first <= next
        ensures NextAllowed(cfg, path, ip, user, ipLink, userLink, log, first, next)
      {
        NothingPromised(cfg, path, ip, user, ipLink, userLink, log, first, next);
        NextFromLog(cfg, path, ip, user, ipLink, userLink, log, first, next);
      }
    } else {
      FailedPromise(cfg, path, ip, user, ipLink, userLink);
    }
  }

  /** For example: a request whose call failed reports the whole budget, though nothing may be left. */
  lemma OutagePromisesTooMuch(cfg: Config, ip: string)
    requires cfg.maxRequests == 1 && cfg.window == 60.0
    ensures var full := RedisStore.Run(Then(Start, SlidingWindow.Request(GeneralIp(ip), 0.0)), 60.0);
            var (b, d) := Charged(Shared(full, 1), cfg, "/api/v1/tasks", ip, None, Call(1.0, Down), Call(1.0, Down));
            && d == Allowed(1, 1, PerIp)
            && Charged(b, cfg, "/api/v1/tasks", ip, None, Call(2.0, Up), Call(2.0, Up)).1 == Limited(1, PerIp)
  {
    var key := GeneralIp(ip);
    var log := Then(Start, SlidingWindow.Request(key, 0.0));
    RedisStore.CountIsLogCount(Then(log, SlidingWindow.Request(key, 2.0)), 60.0);
    assert "/api/v1/tasks" !in AUTH_PATHS;
  }

  // Idling.

  predicate AtMost(bucket: seq<real>, bound: real) {
    forall i :: 0 <= i < |bucket| ==> bucket[i] <= bound
  }

  lemma {:induction false} PopKeeps(bucket: seq<real>, cutoff: real, bound: real)
    requires AtMost(bucket, bound)
    ensures AtMost(InMemory.PopOld(bucket, cutoff), bound)
    ensures bound < cutoff ==> InMemory.PopOld(bucket, cutoff) == []
  {
    if bucket != [] && bucket[0] < cutoff {
      PopKeeps(bucket[1..], cutoff, bound);
    }
  }

  lemma {:induction false} EntriesBounded(log: Log, window: real, key: Key)
    requires InOrder(log)
    ensures var bucket := InMemory.Bucket(InMemory.Run(log, window), key);
            if Requested(log, key) then AtMost(bucket, LatestOf(log, key)) else bucket == []
  {
    if log.Then? {
      var m, last := InMemory.Run(log.before, window), log.last;
      var bucket := InMemory.Bucket(m, key);
      EntriesBounded(log.before, window, key);
      if key in InMemory.Run(log, window).buckets {
        InMemory.CheckBuckets(m, last.key, last.at, window, key);
      }
      if last.key == key {
        if Requested(log.before, key) {
          LatestBounded(log.before, key);
        }
        assert AtMost(bucket, last.at);
        PopKeeps(bucket, last.at - window, last.at);
        assert AtMost(InMemory.PopOld(bucket, last.at - window) + [last.at], last.at);
      }
    }
  }

  lemma IdleMemory(log: Log, key: Key, now: real, window: real)
    requires InOrder(log) && (Requested(log, key) ==> LatestOf(log, key) < now - window)
    ensures InMemory.LastCount(Then(log, Request(key, now)), window) == 1
  {
    var m := InMemory.Run(log, window);
    var bound := if Requested(log, key) then LatestOf(log, key) else now - window - 1.0;
    EntriesBounded(log, window, key);
    PopKeeps(InMemory.Bucket(m, key), now - window, bound);
    InMemory.CheckBuckets(m, key, now, window, key);
  }

  /** After idling strictly longer than the window a key's next request counts 1, on either store. */
  lemma IdleCounts(log: Log, key: Key, now: real, window: real)
    requires InOrder(Then(log, Request(key, now))) && window > 0.0
    requires Requested(log, key) ==> LatestOf(log, key) < now - window
    ensures InMemory.LastCount(Then(log, Request(key, now)), window) == 1
    ensures RedisStore.LastCount(Then(log, Request(key, now)), window) == 1
  {
    IdleMemory(log, key, now, window);
    RedisStore.CountIsLogCount(Then(log, Request(key, now)), window);
    NoneAfter(log, key, now - window);
  }

  lemma {:induction false} NoneAfter(log: Log, key: Key, cutoff: real)
    requires InOrder(log) && (Requested(log, key) ==> LatestOf(log, key) <= cutoff)
    ensures After(log, key, cutoff) == 0
  {
    if log.Then? {
      if log.last.key == key && Requested(log.before, key) {
        LatestBounded(log.before, key);
      }
      NoneAfter(log.before, key, cutoff);
    }
  }

  /** A key not requested within the window before `now`. */
  predicate Idle(log: Log, key: Key, now: real, window: real) {
    Requested(log, key) ==> LatestOf(log, key) < now - window
  }

  /** An idle key's call counts one, or nothing if it fails, on either store. */
  lemma IdleCall(local: bool, log: Log, key: Key, call: Call, window: real)
    requires InOrder(Then(log, SlidingWindow.Request(key, call.at))) && window > 0.0 && Idle(log, key, call.at, window)
    ensures var b := StoreAfter(local, log, window);
            CountOf(b, key, call, window) == if Answered(b, call) then 1 else 0
  {
    IdleCounts(log, key, call.at, window);
  }

  /**
   A client that has idled strictly longer than the window is admitted, on either store and over any links;
   when its calls are answered its first request finds both budgets full.
   */
  lemma IdleAdmits(
    local: bool, log: Log, cfg: Config, path: string, ip: string, user: Option<string>, ipCall: Call, userCall: Call)
    requires InOrder(log) && (log.Then? ==> log.last.at <= ipCall.at) && ipCall.at <= userCall.at && cfg.window > 0.0
    requires Idle(log, IpKey(path, ip), ipCall.at, cfg.window) && IpLimit(cfg, path) >= 1
    requires user.Some? ==> Idle(log, Key.User(user.value), userCall.at, cfg.window) && cfg.userMaxRequests >= 1
    ensures var b := StoreAfter(local, log, cfg.window);
            var d := Charged(b, cfg, path, ip, user, ipCall, userCall).1;
            && d.Allowed?
            && (Answered(b, ipCall) && (user.Some? ==> Answered(b, userCall)) ==>
                  d.remaining == BestRemainder(cfg, path, user, Up, Up))
  {
    var ipKey := IpKey(path, ip);
    IdleCall(local, log, ipKey, ipCall, cfg.window);
    if user.Some? {
      var afterIp := Recorded(local, log, ipKey, ipCall);
      CallRecorded(local, log, ipKey, ipCall, cfg.window);
      IdleCall(local, afterIp, Key.User(user.value), userCall, cfg.window);
    }
  }

  // Coming back at the announced time.

  /** What a request at from + window counts on Redis, whose window is open at its far end. */
  lemma RedisReturn(log: Log, key: Key, window: real, from: real)
    requires InOrder(Then(log, Request(key, from + window))) && window > 0.0
    ensures RedisStore.LastCount(Then(log, Request(key, from + window)), window) == After(log, key, from) + 1
  {
    assert from + window - window == from;
    RedisStore.CountIsLogCount(Then(log, Request(key, from + window)), window);
  }

  /** The same in memory, where it is closed. */
  lemma MemoryReturn(log: Log, key: Key, window: real, from: real)
    requires InOrder(Then(log, Request(key, from + window))) && window > 0.0
    ensures InMemory.LastCount(Then(log, Request(key, from + window)), window)
         == InMemory.SinceRemembered(log, key, from) + 1
  {
    var next := Then(log, Request(key, from + window));
    assert from + window - window == from;
    InMemory.CountIsRemembered(next, window);
    assert InMemory.Others(next, key) == {} && InMemory.Held(next, key);
  }

  /**
   Waiting exactly Retry-After seconds: Redis always admits; the in-memory store admits if and only if
   fewer than `limit` of the requests it remembers carried the very timestamp of the last one.
   */
  lemma RetryAfterExact(log: Log, key: Key, window: real, limit: nat)
    requires InOrder(log) && Requested(log, key) && window > 0.0 && limit >= 1
    requires InOrder(Then(log, Request(key, LatestOf(log, key) + window)))
    ensures var next := Then(log, Request(key, LatestOf(log, key) + window));
            && RedisStore.LastCount(next, window) <= limit
            && (InMemory.LastCount(next, window) <= limit
                <==> InMemory.SinceRemembered(log, key, LatestOf(log, key)) < limit)
  {
    RedisReturn(log, key, window, LatestOf(log, key));
    MemoryReturn(log, key, window, LatestOf(log, key));
    NoneAfter(log, key, LatestOf(log, key));
  }

  /** So with limit 1 and two simultaneous requests, a client that waits exactly as told is refused again in memory. */
  lemma RetryAfterRefused(key: Key)
    ensures var log := Then(Then(Start, Request(key, 0.0)), Request(key, 0.0));
            InMemory.LastCount(Then(log, Request(key, 60.0)), 60.0) > 1
  {
    var log := Then(Then(Start, Request(key, 0.0)), Request(key, 0.0));
    assert InMemory.Held(log.before, key) && InMemory.Held(log, key);
    RetryAfterExact(log, key, 60.0, 1);
  }

  /**
   X-RateLimit-Reset is cut down to a whole second, so it is no upper bound: a client returning at that very
   time is admitted by Redis if and only if fewer than `limit` requests came after the second the request
   arrived in had begun, and by the in-memory store, on the same clock, if and only if fewer than `limit`
   of those it remembers came then or later.
   */
  lemma ResetExact(log: Log, key: Key, window: real, limit: nat, arrived: real)
    requires window > 0.0 && InOrder(Then(log, Request(key, ResetAt(arrived, window))))
    ensures var next := Then(log, Request(key, ResetAt(arrived, window)));
            && (RedisStore.LastCount(next, window) <= limit <==> After(log, key, arrived.Floor as real) < limit)
            && (InMemory.LastCount(next, window) <= limit
                <==> InMemory.SinceRemembered(log, key, arrived.Floor as real) < limit)
  {
    RedisReturn(log, key, window, arrived.Floor as real);
    MemoryReturn(log, key, window, arrived.Floor as real);
  }

  /** One second more is always enough for a client that sent nothing since: its request counts one on either store. */
  lemma ResetPlusOne(log: Log, key: Key, window: real, arrived: real, at: real)
    requires window > 0.0 && InOrder(Then(log, Request(key, at))) && at >= ResetAt(arrived, window) + 1.0
    requires Requested(log, key) ==> LatestOf(log, key) <= arrived
    ensures RedisStore.LastCount(Then(log, Request(key, at)), window) == 1
    ensures InMemory.LastCount(Then(log, Request(key, at)), window) == 1
  {
    assert arrived < arrived.Floor as real + 1.0;
    IdleCounts(log, key, at, window);
  }

  /** With limit 1, a client whose request arrived half a second into the minute is refused at its reset by both. */
  lemma ResetRefused(key: Key)
    ensures var log := Then(Start, Request(key, 0.5));
            && ResetAt(0.5, 60.0) == 60.0
            && RedisStore.LastCount(Then(log, Request(key, 60.0)), 60.0) > 1
            && InMemory.LastCount(Then(log, Request(key, 60.0)), 60.0) > 1
  {
    var log := Then(Start, Request(key, 0.5));
    assert 0.5.Floor == 0 && InMemory.Held(log, key);
    ResetExact(log, key, 60.0, 1, 0.5);
  }
}
