/** The per-upstream circuit breaker. Reading its state may move it from OPEN to HALF_OPEN. */
module CircuitBreakers {
  import opened Wrappers

  datatype CircuitState = Closed | Open | HalfOpen
  datatype Config = Config(threshold: int, timeout: real)
  datatype Breaker = Breaker(state: CircuitState, failures: int, lastFailure: Option<real>)

  const FRESH := Breaker(Closed, 0, None)
  const DEFAULTS := Config(5, 30.0)

  /** Reading the state at `now`. */
  function Observe(b: Breaker, cfg: Config, now: real): Breaker {
    if b.state.Open? && b.lastFailure.Some? && now - b.lastFailure.value >= cfg.timeout
    then b.(state := HalfOpen) else b
  }

  function Succeed(b: Breaker): Breaker { FRESH }

  function Fail(b: Breaker, cfg: Config, now: real): Breaker {
    var failures := b.failures + 1;
    Breaker(if b.state.HalfOpen? || failures >= cfg.threshold then Open else b.state, failures, Some(now))
  }

  /** The object itself; `now` is what time.monotonic() returns inside the call. */
  class CircuitBreaker {
    const cfg: Config
    var state: CircuitState
    var failureCount: int
    var lastFailureTime: Option<real>

    function Value(): Breaker
      reads this
    {
      Breaker(state, failureCount, lastFailureTime)
    }

    constructor (cfg: Config)
      ensures this.cfg == cfg && Value() == FRESH
    {
      this.cfg := cfg;
      state, failureCount, lastFailureTime := Closed, 0, None;
    }

    method State(now: real) returns (s: CircuitState)
      modifies this
      ensures Value() == Observe(old(Value()), cfg, now) && s == state
    {
      if state == Open && lastFailureTime.Some? && now - lastFailureTime.value >= cfg.timeout {
        state := HalfOpen;
      }
      return state;
    }

    method IsOpen(now: real) returns (open: bool)
      modifies this
      ensures Value() == Observe(old(Value()), cfg, now) && open == state.Open?
    {
      var s := State(now);
      return s == Open;
    }

    method AllowProbe(now: real) returns (probe: bool)
      modifies this
      ensures Value() == Observe(old(Value()), cfg, now) && probe == state.HalfOpen?
    {
      var s := State(now);
      return s == HalfOpen;
    }

    method RecordSuccess()
      modifies this
      ensures Value() == Succeed(old(Value()))
    {
      failureCount := 0;
      lastFailureTime := None;
      state := Closed;
    }

    method RecordFailure(now: real)
      modifies this
      ensures Value() == Fail(old(Value()), cfg, now)
    {
      failureCount := failureCount + 1;
      lastFailureTime := Some(now);
      if state == HalfOpen {
        state := Open;
      } else if failureCount >= cfg.threshold {
        state := Open;
      }
    }
  }

  // The breaker as a function of what was reported to it.

  datatype Record = Success | Failure(at: real)

  /** How many failures since the last success. */
  function Streak(records: seq<Record>): nat {
    if records == [] || records[|records| - 1].Success? then 0 else 1 + Streak(records[..|records| - 1])
  }

  /** The state a reader must see at `now`, from the reports alone. */
  function Answer(records: seq<Record>, cfg: Config, now: real): CircuitState {
    if Streak(records) == 0 || Streak(records) < cfg.threshold then Closed
    else if now - records[|records| - 1].at < cfg.timeout then Open
    else HalfOpen
  }

  /** The stored fields after these reports, the last read or report having been at `clock`. */
  ghost predicate Tracks(b: Breaker, records: seq<Record>, cfg: Config, clock: real) {
    var streak := Streak(records);
    && b.failures == streak
    && b.lastFailure == (if streak == 0 then None else Some(records[|records| - 1].at))
    && (if streak == 0 || streak < cfg.threshold then b.state.Closed?
        else b.state.Open? || (b.state.HalfOpen? && clock - records[|records| - 1].at >= cfg.timeout))
  }

  lemma TracksAnswers(b: Breaker, records: seq<Record>, cfg: Config, clock: real, now: real)
    requires Tracks(b, records, cfg, clock) && clock <= now
    ensures Observe(b, cfg, now).state == Answer(records, cfg, now)
    ensures Tracks(Observe(b, cfg, now), records, cfg, now)
  {
  }

  lemma TracksReport(b: Breaker, records: seq<Record>, cfg: Config, clock: real, now: real)
    requires Tracks(b, records, cfg, clock) && clock <= now
    ensures Tracks(Succeed(b), records + [Success], cfg, now)
    ensures Tracks(Fail(b, cfg, now), records + [Failure(now)], cfg, now)
  {
    assert (records + [Failure(now)])[..|records|] == records;
  }

  datatype Op = Read(at: real) | Report(record: Record, time: real)

  function TimeOf(op: Op): real { if op.Read? then op.at else op.time }

  /** Timestamps never go back and a failure is stamped when it is reported. */
  predicate Clocked(ops: seq<Op>) {
    && (forall i, j :: 0 <= i < j < |ops| ==> TimeOf(ops[i]) <= TimeOf(ops[j]))
    && (forall i :: 0 <= i < |ops| && ops[i].Report? && ops[i].record.Failure? ==> ops[i].record.at == ops[i].time)
  }

  function RunOps(ops: seq<Op>, cfg: Config): Breaker {
    if ops == [] then FRESH
    else
      var b := RunOps(ops[..|ops| - 1], cfg);
      match ops[|ops| - 1]
      case Read(at) => Observe(b, cfg, at)
      case Report(Success, _) => Succeed(b)
      case Report(Failure(at), _) => Fail(b, cfg, at)
  }

  function Records(ops: seq<Op>): seq<Record> {
    if ops == [] then []
    else Records(ops[..|ops| - 1]) + if ops[|ops| - 1].Report? then [ops[|ops| - 1].record] else []
  }

  lemma {:induction false} RunTracks(ops: seq<Op>, cfg: Config, clock: real)
    requires Clocked(ops) && (ops == [] || TimeOf(ops[|ops| - 1]) == clock)
    ensures Tracks(RunOps(ops, cfg), Records(ops), cfg, clock)
  {
    if ops != [] {
      var front := ops[..|ops| - 1];
      var before := if front == [] then clock else TimeOf(front[|front| - 1]);
      assert front != [] ==> front[|front| - 1] == ops[|ops| - 2];
      RunTracks(front, cfg, before);
      TracksAnswers(RunOps(front, cfg), Records(front), cfg, before, clock);
      TracksReport(RunOps(front, cfg), Records(front), cfg, before, clock);
      assert Records(front) + [] == Records(front);
    }
  }

  /**
   In every run: OPEN iff the failures since the last success reach the threshold and the last is younger
   than the timeout; HALF_OPEN iff they reach it and the timeout has elapsed.
   */
  lemma BreakerIsItsHistory(ops: seq<Op>, cfg: Config, now: real)
    requires Clocked(ops) && forall i :: 0 <= i < |ops| ==> TimeOf(ops[i]) <= now
    ensures Observe(RunOps(ops, cfg), cfg, now).state == Answer(Records(ops), cfg, now)
  {
    var clock := if ops == [] then now else TimeOf(ops[|ops| - 1]);
    RunTracks(ops, cfg, clock);
    TracksAnswers(RunOps(ops, cfg), Records(ops), cfg, clock, now);
  }

  /** Reads may be added or dropped anywhere: only the reports decide what is seen. */
  lemma ReadsImmaterial(a: seq<Op>, b: seq<Op>, cfg: Config, now: real)
    requires Clocked(a) && Clocked(b) && Records(a) == Records(b)
    requires forall i :: 0 <= i < |a| ==> TimeOf(a[i]) <= now
    requires forall i :: 0 <= i < |b| ==> TimeOf(b[i]) <= now
    ensures Observe(RunOps(a, cfg), cfg, now).state == Observe(RunOps(b, cfg), cfg, now).state
  {
    BreakerIsItsHistory(a, cfg, now);
    BreakerIsItsHistory(b, cfg, now);
  }
}
