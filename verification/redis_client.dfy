/** The user-service's key store: refresh tokens, single-use mail tokens and login-failure counters. */
module KeyStore {
  import opened Wrappers

  datatype Key = Refresh(token: string) | LoginFail(email: string) | Verify(token: string) | Reset(token: string)
  datatype Value = UserId(id: string) | Failures(n: int)
  datatype Entry = Entry(value: Value, expiry: Option<real>)
  type Store = map<Key, Entry>

  const REFRESH_TOKEN_TTL := 2592000.0
  const RESET_TOKEN_TTL := 3600.0
  const LOCKOUT_THRESHOLD := 10
  const LOCKOUT_WINDOW := 900.0

  /** The key's text in Redis. */
  function KeyName(key: Key): string {
    match key
    case Refresh(token) => "refresh:" + token
    case LoginFail(email) => "login_fail:" + email
    case Verify(token) => "verify:" + token
    case Reset(token) => "reset:" + token
  }

  /** The prefixes keep the key spaces apart, whatever tokens and addresses contain. */
  lemma KeyNamesDiffer(a: Key, b: Key)
    requires KeyName(a) == KeyName(b)
    ensures a == b
  {
    var prefix :=
      match a
      case Refresh(_) => "refresh:"
      case LoginFail(_) => "login_fail:"
      case Verify(_) => "verify:"
      case Reset(_) => "reset:";
    assert KeyName(a)[0] == KeyName(b)[0] && KeyName(a)[2] == KeyName(b)[2];
    assert KeyName(a)[|prefix|..] == if a.LoginFail? then a.email else a.token;
    assert KeyName(b)[|prefix|..] == if b.LoginFail? then b.email else b.token;
  }

  predicate Live(store: Store, key: Key, now: real) {
    key in store && (store[key].expiry.Some? ==> now < store[key].expiry.value)
  }

  function Get(store: Store, key: Key, now: real): Option<Value> {
    if Live(store, key, now) then Some(store[key].value) else None
  }

  /** The user a token key stands for. */
  function UserOf(store: Store, key: Key, now: real): Option<string> {
    if Live(store, key, now) && store[key].value.UserId? then Some(store[key].value.id) else None
  }

  function SetEx(store: Store, key: Key, ttl: real, value: Value, now: real): Store {
    store[key := Entry(value, Some(now + ttl))]
  }

  function Del(store: Store, key: Key): Store {
    store - {key}
  }

  /** INCR then EXPIRE NX in one transaction: a new counter starts its window, an old one keeps its expiry. */
  function IncrExpireNx(store: Store, key: Key, ttl: real, now: real): Store {
    var before := Get(store, key, now);
    var n := if before.Some? && before.value.Failures? then before.value.n else 0;
    var expiry := if before.Some? && store[key].expiry.Some? then store[key].expiry else Some(now + ttl);
    store[key := Entry(Failures(n + 1), expiry)]
  }

  /** The failures that count against an account now. */
  function FailureCount(store: Store, email: string, now: real): int {
    match Get(store, LoginFail(email), now)
    case Some(Failures(n)) => n
    case _ => 0
  }

  function Locked(store: Store, email: string, now: real): bool {
    FailureCount(store, email, now) >= LOCKOUT_THRESHOLD
  }

  datatype User = User(id: string, active: bool)
  datatype LoginResult = Unauthorized | Deactivated | ServerError | Tokens(refreshToken: Option<string>)
  datatype ResetResult = NoContent | BadRequest | Failed

  /**
   How one Redis call fares: answered, no client at all, or an exception, which may come after the server
   has executed the command.
   */
  datatype Link = Up | Absent | Failing(executed: bool)

  predicate Executes(link: Link) {
    link.Up? || (link.Failing? && link.executed)
  }

  /** A value, or an exception the route does not catch. */
  datatype Reply<T> = Done(value: T) | Raised

  /** The shared store behind redis_client and the routes using it, and the users' password hashes by id. */
  class Sessions {
    var store: Store
    var passwords: map<string, string>

    constructor (passwords: map<string, string>)
      ensures store == map[] && this.passwords == passwords
    {
      store, this.passwords := map[], passwords;
    }

    method StoreRefreshToken(token: string, userId: string, now: real, link: Link) returns (r: Reply<bool>)
      modifies this`store
      ensures r == if link.Failing? then Raised else Done(link.Up?)
      ensures store == if Executes(link) then SetEx(old(store), Refresh(token), REFRESH_TOKEN_TTL, UserId(userId), now)
                       else old(store)
    {
      if Executes(link) {
        store := store[Refresh(token) := Entry(UserId(userId), Some(now + REFRESH_TOKEN_TTL))];
      }
      return if link.Failing? then Raised else Done(link.Up?);
    }

    /** GETDEL on a token key, for refresh and reset tokens alike. */
    method ConsumeToken(key: Key, now: real, link: Link) returns (r: Reply<Option<string>>)
      modifies this`store
      ensures store == if Executes(link) then Del(old(store), key) else old(store)
      ensures Executes(link) ==> key !in store && forall k :: k != key ==> Get(store, k, now) == Get(old(store), k, now)
      ensures r.Raised? <==> link.Failing?
      ensures r.Done? ==> r.value == if link.Up? then UserOf(old(store), key, now) else None
    {
      var held := Get(store, key, now);
      if Executes(link) {
        store := store - {key};
      }
      if link.Failing? {
        return Raised;
      }
      return Done(if link.Up? && held.Some? && held.value.UserId? then Some(held.value.id) else None);
    }

    method RevokeRefreshToken(token: string, link: Link) returns (raised: bool)
      modifies this`store
      ensures store == (if Executes(link) then Del(old(store), Refresh(token)) else old(store))
      ensures raised == link.Failing?
    {
      if Executes(link) {
        store := store - {Refresh(token)};
      }
      return link.Failing?;
    }

    method IsAccountLocked(email: string, now: real, link: Link) returns (locked: bool)
      ensures locked == (link.Up? && Locked(store, email, now))
    {
      if !link.Up? || !Live(store, LoginFail(email), now) {
        return false;
      }
      var raw := store[LoginFail(email)].value;
      return raw.Failures? && raw.n >= LOCKOUT_THRESHOLD;
    }

    method RecordLoginFailure(email: string, now: real, link: Link) returns (count: int)
      modifies this`store
      ensures store == if Executes(link) then IncrExpireNx(old(store), LoginFail(email), LOCKOUT_WINDOW, now)
                       else old(store)
      ensures count == if link.Up? then FailureCount(old(store), email, now) + 1 else 0
    {
      if !Executes(link) {
        return 0;
      }
      count := 1;
      var expiry: Option<real> := None;
      if Live(store, LoginFail(email), now) {
        var held := store[LoginFail(email)];
        count := (if held.value.Failures? then held.value.n else 0) + 1;
        expiry := held.expiry;
      }
      if expiry.None? {
        expiry := Some(now + LOCKOUT_WINDOW);
      }
      store := store[LoginFail(email) := Entry(Failures(count), expiry)];
      if !link.Up? {
        count := 0;
      }
    }

    method ResetLoginFailures(email: string, link: Link)
      modifies this`store
      ensures store == if Executes(link) then Del(old(store), LoginFail(email)) else old(store)
    {
      if Executes(link) {
        store := store - {LoginFail(email)};
      }
    }

    /**
     A login nobody interleaves with: lockout first, failures counted only for real unlocked accounts. The
     lockout calls fail open; a failing store of the new token is a server error.
     */
    method Login(
      email: string, user: Option<User>, passwordOk: bool, token: string, now: real,
      check: Link, record: Link, reset: Link, issue: Link) returns (r: LoginResult)
      modifies this`store
      ensures var locked := check.Up? && Locked(old(store), email, now);
              if locked || user.None? || !passwordOk then
                && r == Unauthorized
                && store == (if user.Some? && !locked && Executes(record)
                             then IncrExpireNx(old(store), LoginFail(email), LOCKOUT_WINDOW, now) else old(store))
              else if !user.value.active then r == Deactivated && store == old(store)
              else
                var cleared := if Executes(reset) then Del(old(store), LoginFail(email)) else old(store);
                && r == (if issue.Failing? then ServerError else Tokens(if issue.Up? then Some(token) else None))
                && store == (if Executes(issue)
                             then SetEx(cleared, Refresh(token), REFRESH_TOKEN_TTL, UserId(user.value.id), now)
                             else cleared)
    {
      var accountIsLocked := IsAccountLocked(email, now, check);
      if accountIsLocked || user.None? || !passwordOk {
        if user.Some? && !accountIsLocked {
          var count := RecordLoginFailure(email, now, record);
        }
        return Unauthorized;
      }
      if !user.value.active {
        return Deactivated;
      }
      ResetLoginFailures(email, reset);
      r := IssueTokens(user.value.id, token, now, issue);
    }

    method IssueTokens(userId: string, token: string, now: real, issue: Link) returns (r: LoginResult)
      modifies this`store
      ensures r == if issue.Failing? then ServerError else Tokens(if issue.Up? then Some(token) else None)
      ensures store == if Executes(issue) then SetEx(old(store), Refresh(token), REFRESH_TOKEN_TTL, UserId(userId), now)
                       else old(store)
    {
      var stored := StoreRefreshToken(token, userId, now, issue);
      if stored.Raised? {
        return ServerError;
      }
      return Tokens(if stored.value then Some(token) else None);
    }

    /**
     A refresh nobody interleaves with. The old token is gone even when the account turns out unusable, and
     when the store fails after the consumption: then the session ends with no successor the client knows.
     */
    method RefreshToken(token: string, user: Option<User>, newToken: string, now: real, take: Link, issue: Link)
      returns (r: LoginResult)
      modifies this`store
      ensures var left := if Executes(take) then Del(old(store), Refresh(token)) else old(store);
              if take.Failing? then r == ServerError && store == left
              else if take.Absent? || UserOf(old(store), Refresh(token), now).None? || user.None? || !user.value.active
              then r == Unauthorized && store == left
              else
                && r == (if issue.Failing? then ServerError else Tokens(if issue.Up? then Some(newToken) else None))
                && store == (if Executes(issue)
                             then SetEx(left, Refresh(newToken), REFRESH_TOKEN_TTL, UserId(user.value.id), now)
                             else left)
    {
      var holder := ConsumeToken(Refresh(token), now, take);
      if holder.Raised? {
        return ServerError;
      }
      if holder.value.None? || user.None? || !user.value.active {
        return Unauthorized;
      }
      r := IssueTokens(user.value.id, newToken, now, issue);
    }

    /** The password changes exactly for a live token of an existing account; no session of anybody is touched. */
    method ResetPassword(token: string, newPassword: string, now: real, take: Link) returns (r: ResetResult)
      modifies this
      ensures store == if Executes(take) then Del(old(store), Reset(token)) else old(store)
      ensures forall t :: UserOf(store, Refresh(t), now) == UserOf(old(store), Refresh(t), now)
      ensures var holder := UserOf(old(store), Reset(token), now);
              && (r == Failed <==> take.Failing?)
              && (r == NoContent <==> take.Up? && holder.Some? && holder.value in old(passwords))
              && passwords == if r == NoContent then old(passwords)[holder.value := newPassword] else old(passwords)
    {
      var holder := ConsumeToken(Reset(token), now, take);
      if holder.Raised? {
        return Failed;
      }
      if holder.value.None? || holder.value.value !in passwords {
        return BadRequest;
      }
      passwords := passwords[holder.value.value := newPassword];
      return NoContent;
    }
  }

  // Lockout, one login after another.

  /** A wrong password for a real account at each of these times. */
  function AfterFailures(store: Store, email: string, times: seq<real>): Store {
    if times == [] then store
    else
      var before, now := AfterFailures(store, email, times[..|times| - 1]), times[|times| - 1];
      if Locked(before, email, now) then before else IncrExpireNx(before, LoginFail(email), LOCKOUT_WINDOW, now)
  }

  /**
   Serial failures inside one window: the counter reads min(n, 10), its expiry stays 900 s after the first
   failure, so the account is locked from the tenth failure to the end of that window and not longer.
   */
  lemma {:induction false} SerialFailures(store: Store, email: string, times: seq<real>)
    requires times != [] && !Live(store, LoginFail(email), times[0])
    requires forall i, j :: 0 <= i < j < |times| ==> times[i] <= times[j]
    requires forall i :: 0 <= i < |times| ==> times[i] < times[0] + 900.0
    ensures var after := AfterFailures(store, email, times);
            && LoginFail(email) in after
            && after[LoginFail(email)].value
               == Failures(if |times| < 10 then |times| else 10)
            && after[LoginFail(email)].expiry == Some(times[0] + 900.0)
            && forall now :: Locked(after, email, now) <==> |times| >= 10 && now < times[0] + 900.0
  {
    var front := times[..|times| - 1];
    if front != [] {
      SerialFailures(store, email, front);
    } else {
      assert AfterFailures(store, email, front) == store;
    }
  }
}
