/** What a sliding-window limiter must count: the plain log of every request, admitted or not. */
module SlidingWindow {

  /** The buckets: per scope and client address, and per user. */
  datatype Key = AuthIp(ip: string) | GeneralIp(ip: string) | User(id: string)

  /** The key's text in the store. */
  function KeyName(key: Key): string {
    match key
    case AuthIp(ip) => "rate:auth:" + ip
    case GeneralIp(ip) => "rate:general:" + ip
    case User(id) => "rate:user:" + id
  }

  /** Different buckets never share a key text, whatever the address or user id contains. */
  lemma KeyNamesDiffer(a: Key, b: Key)
    requires KeyName(a) == KeyName(b)
    ensures a == b
  {
    var prefix := if a.AuthIp? then "rate:auth:" else if a.GeneralIp? then "rate:general:" else "rate:user:";
    assert KeyName(a)[5] == KeyName(b)[5];
    assert KeyName(a)[|prefix|..] == if a.User? then a.id else a.ip;
    assert KeyName(b)[|prefix|..] == if b.User? then b.id else b.ip;
  }

  datatype Request = Request(key: Key, at: real)

  /** A run: every request so far, the latest outermost, so that each moment of the run is a part of it. */
  datatype Log = Start | Then(before: Log, last: Request)

  /** The clock never goes back. */
  predicate InOrder(log: Log) {
    log.Then? ==> InOrder(log.before) && (log.before.Then? ==> log.before.last.at <= log.last.at)
  }

  predicate Requested(log: Log, key: Key) {
    log.Then? && (log.last.key == key || Requested(log.before, key))
  }

  /** When the key was last requested. */
  function LatestOf(log: Log, key: Key): real
    requires Requested(log, key)
  {
    if log.last.key == key then log.last.at else LatestOf(log.before, key)
  }

  /** Number of requests for `key` at or after `cutoff`. */
  function Since(log: Log, key: Key, cutoff: real): nat {
    if log.Start? then 0
    else Since(log.before, key, cutoff) + if log.last.key == key && log.last.at >= cutoff then 1 else 0
  }

  /** Number of requests for `key` strictly after `cutoff`. */
  function After(log: Log, key: Key, cutoff: real): nat {
    if log.Start? then 0
    else After(log.before, key, cutoff) + if log.last.key == key && log.last.at > cutoff then 1 else 0
  }

  function Length(log: Log): nat {
    if log.Start? then 0 else Length(log.before) + 1
  }

  lemma {:induction false} LatestBounded(log: Log, key: Key)
    requires Requested(log, key) && InOrder(log)
    ensures LatestOf(log, key) <= log.last.at
  {
    if log.last.key != key {
      LatestBounded(log.before, key);
    }
  }
}
