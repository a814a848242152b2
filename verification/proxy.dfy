/** Dispatching to an upstream: breaker guard, retries for GET, one report. */
module Proxy {
  import opened Wrappers
  import opened CircuitBreakers

  /** How one upstream attempt ends. OtherError is any exception the retry loop does not catch. */
  datatype Outcome = Response(status: int) | ConnectError | Timeout | OtherError
  datatype Result = Rejected | Returned(status: int) | Unreachable | TimedOut | Exhausted | Raised

  const MAX_ATTEMPTS := 3

  predicate RetryableStatus(status: int) { status in {502, 503, 504} }

  function Attempts(isGet: bool): nat { if isGet then MAX_ATTEMPTS else 1 }

  /** No further attempt can follow this outcome. */
  predicate Decisive(o: Outcome) {
    o.OtherError? || (o.Response? && !RetryableStatus(o.status))
  }

  /** The replies of a finished dispatch: it went on past every indecisive one until its attempts ran out. */
  ghost predicate Complete(isGet: bool, replies: seq<Outcome>) {
    && 1 <= |replies| <= Attempts(isGet)
    && (forall i :: 0 <= i < |replies| - 1 ==> !Decisive(replies[i]))
    && (Decisive(replies[|replies| - 1]) || |replies| == Attempts(isGet))
  }

  /** What the last attempt's outcome means for the caller. */
  function ResultOf(o: Outcome): Result {
    match o
    case Response(status) => Returned(status)
    case ConnectError => Unreachable
    case Timeout => TimedOut
    case OtherError => Raised
  }

  /** What it means for the breaker: a report, unless the exception escaped the loop. */
  function RecordOf(o: Outcome, at: real): Option<Record> {
    if o.OtherError? then None
    else if Decisive(o) then Some(Success)
    else Some(Failure(at))
  }

  /** The status the client gets; an exception that escapes the loop becomes a plain 500. */
  function ClientStatus(r: Result): int {
    match r
    case Rejected => 503
    case Returned(status) => status
    case Unreachable => 503
    case TimedOut => 504
    case Exhausted => 503
    case Raised => 500
  }

  function Reported(b: Breaker, cfg: Config, record: Option<Record>): Breaker {
    match record
    case None => b
    case Some(Success) => Succeed(b)
    case Some(Failure(at)) => Fail(b, cfg, at)
  }

  /**
   One dispatch on its own. The upstream answers attempt i with outcomes[i] at times[i].
   Never more than three attempts for GET or one otherwise; the first decisive outcome wins, else the
   last one; exactly one report, of that outcome; the closing "all attempts exhausted" error is unreachable.
   */
  method DispatchWithRetry(breaker: CircuitBreaker, isGet: bool, start: real, outcomes: seq<Outcome>, times: seq<real>)
    returns (r: Result, made: nat)
    requires |outcomes| == |times| == MAX_ATTEMPTS
    modifies breaker
    ensures var seen := Observe(old(breaker.Value()), breaker.cfg, start);
            if seen.state.Open? then
              r == Rejected && made == 0 && breaker.Value() == seen
            else
              && 1 <= made <= Attempts(isGet)
              && Complete(isGet, outcomes[..made])
              && r == ResultOf(outcomes[made - 1])
              && breaker.Value() == Reported(seen, breaker.cfg, RecordOf(outcomes[made - 1], times[made - 1]))
    ensures r != Exhausted && (r == Rejected ==> ClientStatus(r) == 503)
  {
    made := 0;
    var open := breaker.IsOpen(start);
    if open {
      return Rejected, 0;
    }
    ghost var seen := breaker.Value();
    var attempts := if isGet then MAX_ATTEMPTS else 1;
    var lastExc: Option<Outcome> := None;
    for attempt := 0 to attempts
      invariant made == attempt
      invariant forall i :: 0 <= i < attempt ==> !Decisive(outcomes[i])
      invariant breaker.Value() == seen
      invariant attempt > 0 ==> lastExc == if outcomes[attempt - 1].Response? then None else Some(outcomes[attempt - 1])
      invariant attempt == attempts ==> !outcomes[attempts - 1].Response?
    {
      made := attempt + 1;
      match outcomes[attempt] {
        case Response(status) =>
          if RetryableStatus(status) && isGet && attempt < attempts - 1 {
            lastExc := None;
            continue;
          }
          if status < 500 || !RetryableStatus(status) {
            breaker.RecordSuccess();
          } else if RetryableStatus(status) {
            breaker.RecordFailure(times[attempt]);
          }
          return Returned(status), made;
        case OtherError =>
          return Raised, made;
        case _ =>
          lastExc := Some(outcomes[attempt]);
      }
    }
    breaker.RecordFailure(times[attempts - 1]);
    if lastExc == Some(ConnectError) {
      return Unreachable, made;
    }
    if lastExc == Some(Timeout) {
      return TimedOut, made;
    }
    return Exhausted, made;
  }

  /** Connection errors, timeouts and the statuses 502, 503 and 504 count as failures, any other answer as a success. */
  lemma ReportMeans(o: Outcome, at: real)
    ensures RecordOf(o, at)
         == if o.OtherError? then None
            else if o.ConnectError? || o.Timeout? || (o.Response? && 502 <= o.status <= 504) then Some(Failure(at))
            else Some(Success)
  {
  }

  /**
   What an ended dispatch has been through: one attempt, or up to three for GET; only connection errors,
   timeouts and 502, 503 or 504 were followed by another, and each of them was while attempts were left; and
   the client gets the last attempt's status, or 503 or 504 for a last attempt without one.
   */
  lemma EndedMeans(isGet: bool, replies: seq<Outcome>)
    requires Complete(isGet, replies)
    ensures 1 <= |replies| <= if isGet then 3 else 1
    ensures forall i :: 0 <= i < |replies| ==>
              var o := replies[i];
              var transient := o.ConnectError? || o.Timeout? || (o.Response? && 502 <= o.status <= 504);
              i + 1 < |replies| <==> transient && i + 1 < if isGet then 3 else 1
    ensures var last := replies[|replies| - 1];
            ClientStatus(ResultOf(last))
              == match last case Response(status) => status case ConnectError => 503 case Timeout => 504
                            case OtherError => 500
  {
  }

  // Many dispatches in flight at once: every await is a point where others run.

  datatype Flight = Flight(service: string, isGet: bool, replies: seq<Outcome>)
  datatype Done = Done(flight: Flight, result: Result)
  datatype Entry = Entry(id: nat, service: string, record: Record)
  datatype System = System(
    breakers: map<string, Breaker>, flights: map<nat, Flight>, done: map<nat, Done>, log: seq<Entry>)

  /** A dispatch arrives; an awaited attempt ends; the readiness endpoint reads every breaker. */
  datatype Event =
    | Begin(id: nat, service: string, isGet: bool, at: real)
    | Reply(id: nat, outcome: Outcome, at: real)
    | Peek(at: real)

  const IDLE := System(map[], map[], map[], [])

  /** registry.get: created on first use. */
  function Get(sys: System, service: string): Breaker {
    if service in sys.breakers then sys.breakers[service] else FRESH
  }

  function Apply(sys: System, e: Event): System {
    match e
    case Begin(id, service, isGet, at) =>
      if id in sys.flights || id in sys.done then sys
      else
        var seen := Observe(Get(sys, service), DEFAULTS, at);
        var flight := Flight(service, isGet, []);
        var sys' := sys.(breakers := sys.breakers[service := seen]);
        if seen.state.Open? then sys'.(done := sys.done[id := Done(flight, Rejected)])
        else sys'.(flights := sys.flights[id := flight])
    case Reply(id, outcome, at) =>
      if id !in sys.flights then sys else AfterReply(sys, id, outcome, at)
    case Peek(at) =>
      sys.(breakers := map service | service in sys.breakers :: Observe(sys.breakers[service], DEFAULTS, at))
  }

  /** Does the loop go round again after this outcome? */
  predicate Again(flight: Flight, outcome: Outcome) {
    var attempt, attempts := |flight.replies|, Attempts(flight.isGet);
    match outcome
    case Response(status) => RetryableStatus(status) && flight.isGet && attempt < attempts - 1
    case OtherError => false
    case _ => attempt < attempts - 1
  }

  /** The loop body after an await, and the code behind the loop when it was the last attempt. */
  function AfterReply(sys: System, id: nat, outcome: Outcome, at: real): System
    requires id in sys.flights
  {
    var flight := sys.flights[id].(replies := sys.flights[id].replies + [outcome]);
    if Again(sys.flights[id], outcome) then sys.(flights := sys.flights[id := flight])
    else Logged(Ended(sys, id, Done(flight, ResultOf(outcome))), id, flight.service, RecordOf(outcome, at))
  }

  function Ended(sys: System, id: nat, done: Done): System {
    sys.(flights := sys.flights - {id}, done := sys.done[id := done])
  }

  function Logged(sys: System, id: nat, service: string, record: Option<Record>): System {
    if record.None? then sys
    else sys.(
      breakers := sys.breakers[service := Reported(Get(sys, service), DEFAULTS, record)],
      log := sys.log + [Entry(id, service, record.value)])
  }

  function Run(events: seq<Event>): System {
    if events == [] then IDLE else Apply(Run(events[..|events| - 1]), events[|events| - 1])
  }

  predicate Monotone(events: seq<Event>) {
    forall i, j :: 0 <= i < j < |events| ==> events[i].at <= events[j].at
  }

  function Count(log: seq<Entry>, id: nat): nat {
    if log == [] then 0 else Count(log[..|log| - 1], id) + if log[|log| - 1].id == id then 1 else 0
  }

  /** What was reported about one service, in order. */
  function Of(log: seq<Entry>, service: string): seq<Record> {
    if log == [] then []
    else Of(log[..|log| - 1], service) + if log[|log| - 1].service == service then [log[|log| - 1].record] else []
  }

  /** What is true of a dispatch that has ended, with its number of reports. */
  ghost predicate EndedWell(d: Done, reports: nat) {
    if d.result == Rejected then d.flight.replies == [] && reports == 0
    else
      && Complete(d.flight.isGet, d.flight.replies)
      && d.result == ResultOf(d.flight.replies[|d.flight.replies| - 1])
      && reports == (if d.flight.replies[|d.flight.replies| - 1].OtherError? then 0 else 1)
  }

  ghost predicate FlightInv(f: Flight, reports: nat) {
    && |f.replies| < Attempts(f.isGet) && reports == 0
    && forall i :: 0 <= i < |f.replies| ==> !Decisive(f.replies[i])
  }

  /** A report names an ended dispatch of its own service; it is a success exactly if the last reply was a good one. */
  predicate Justified(done: map<nat, Done>, entry: Entry) {
    && entry.id in done
    && var flight := done[entry.id].flight;
    && flight.service == entry.service && flight.replies != []
    && (entry.record.Success? <==> Decisive(flight.replies[|flight.replies| - 1]))
  }

  ghost predicate DispatchInv(sys: System) {
    && sys.flights.Keys !! sys.done.Keys
    && (forall id :: id in sys.flights ==> FlightInv(sys.flights[id], Count(sys.log, id)))
    && (forall id :: id in sys.done ==> EndedWell(sys.done[id], Count(sys.log, id)))
    && (forall id :: id !in sys.flights && id !in sys.done ==> Count(sys.log, id) == 0)
  }

  ghost predicate LogInv(sys: System) {
    && sys.flights.Keys !! sys.done.Keys
    && forall i :: 0 <= i < |sys.log| ==> Justified(sys.done, sys.log[i])
  }

  ghost predicate Inv(sys: System, clock: real) {
    && DispatchInv(sys) && LogInv(sys)
    && (forall service :: Tracks(Get(sys, service), Of(sys.log, service), DEFAULTS, clock))
  }

  /** Reads alone keep every breaker in step with its reports. */
  lemma ReadsTrack(sys: System, sys': System, clock: real, at: real)
    requires forall service :: Tracks(Get(sys, service), Of(sys.log, service), DEFAULTS, clock)
    requires clock <= at && sys'.log == sys.log
    requires forall service ::
               Get(sys', service) == Get(sys, service) || Get(sys', service) == Observe(Get(sys, service), DEFAULTS, at)
    ensures forall service :: Tracks(Get(sys', service), Of(sys'.log, service), DEFAULTS, at)
  {
    forall service ensures Tracks(Get(sys', service), Of(sys'.log, service), DEFAULTS, at) {
      assert Tracks(Get(sys, service), Of(sys.log, service), DEFAULTS, clock);
      TracksAnswers(Get(sys, service), Of(sys.log, service), DEFAULTS, clock, at);
    }
  }

  lemma BeginDispatch(sys: System, e: Event)
    requires DispatchInv(sys) && e.Begin?
    ensures DispatchInv(Apply(sys, e))
  {
  }

  /** Reports stay justified: what ended stays ended, and a new report is justified when it is logged. */
  lemma LogKeeps(sys: System, e: Event)
    requires LogInv(sys)
    ensures LogInv(Apply(sys, e))
  {
    var sys' := Apply(sys, e);
    forall i | 0 <= i < |sys'.log| ensures Justified(sys'.done, sys'.log[i]) {
      assert i < |sys.log| ==> sys'.log[i] == sys.log[i] && Justified(sys.done, sys.log[i]);
    }
  }

  lemma BeginTracks(sys: System, e: Event, clock: real)
    requires forall service :: Tracks(Get(sys, service), Of(sys.log, service), DEFAULTS, clock)
    requires e.Begin? && clock <= e.at
    ensures forall service :: Tracks(Get(Apply(sys, e), service), Of(Apply(sys, e).log, service), DEFAULTS, e.at)
  {
    var sys' := Apply(sys, e);
    if e.id in sys.flights || e.id in sys.done {
      ReadsTrack(sys, sys, clock, e.at);
    } else {
      assert sys'.breakers == sys.breakers[e.service := Observe(Get(sys, e.service), DEFAULTS, e.at)];
      ReadsTrack(sys, sys', clock, e.at);
    }
  }

  lemma BeginKeeps(sys: System, e: Event, clock: real)
    requires Inv(sys, clock) && e.Begin? && clock <= e.at
    ensures Inv(Apply(sys, e), e.at)
  {
    BeginDispatch(sys, e);
    LogKeeps(sys, e);
    BeginTracks(sys, e, clock);
  }

  lemma PeekKeeps(sys: System, e: Event, clock: real)
    requires Inv(sys, clock) && e.Peek? && clock <= e.at
    ensures Inv(Apply(sys, e), e.at)
  {
    ReadsTrack(sys, Apply(sys, e), clock, e.at);
  }

  /** Logging one entry: one more for its id, one more record for its service. */
  lemma LogGrows(log: seq<Entry>, entry: Entry)
    ensures forall id :: Count(log + [entry], id) == Count(log, id) + if id == entry.id then 1 else 0
    ensures forall s :: Of(log + [entry], s) == Of(log, s) + if s == entry.service then [entry.record] else []
  {
    assert (log + [entry])[..|log|] == log;
  }

  lemma LoggedTracks(sys: System, id: nat, service: string, record: Option<Record>, clock: real, at: real)
    requires forall s :: Tracks(Get(sys, s), Of(sys.log, s), DEFAULTS, clock)
    requires clock <= at && (record.Some? && record.value.Failure? ==> record.value.at == at)
    ensures var sys' := Logged(sys, id, service, record);
            forall s :: Tracks(Get(sys', s), Of(sys'.log, s), DEFAULTS, at)
  {
    var sys' := Logged(sys, id, service, record);
    if record.Some? {
      LogGrows(sys.log, Entry(id, service, record.value));
      TracksReport(Get(sys, service), Of(sys.log, service), DEFAULTS, clock, at);
    }
    forall s ensures Tracks(Get(sys', s), Of(sys'.log, s), DEFAULTS, at) {
      assert Tracks(Get(sys, s), Of(sys.log, s), DEFAULTS, clock);
      if record.None? || s != service {
        assert Of(sys.log, s) + [] == Of(sys.log, s);
        assert Get(sys', s) == Get(sys, s) && Of(sys'.log, s) == Of(sys.log, s);
      } else {
        assert Get(sys', s) == Reported(Get(sys, s), DEFAULTS, record);
        assert Of(sys'.log, s) == Of(sys.log, s) + [record.value];
      }
    }
  }

  lemma ReplyKeeps(sys: System, e: Event, clock: real)
    requires Inv(sys, clock) && e.Reply? && clock <= e.at
    ensures Inv(Apply(sys, e), e.at)
  {
    LogKeeps(sys, e);
    if e.id !in sys.flights || Again(sys.flights[e.id], e.outcome) {
      LoggedTracks(sys, e.id, "", None, clock, e.at);
      RetryKeeps(sys, e);
    } else {
      var flight := sys.flights[e.id].(replies := sys.flights[e.id].replies + [e.outcome]);
      var mid := Ended(sys, e.id, Done(flight, ResultOf(e.outcome)));
      LoggedTracks(mid, e.id, flight.service, RecordOf(e.outcome, e.at), clock, e.at);
      EndKeeps(sys, e);
    }
  }

  lemma RetryKeeps(sys: System, e: Event)
    requires DispatchInv(sys) && e.Reply? && (e.id in sys.flights ==> Again(sys.flights[e.id], e.outcome))
    ensures DispatchInv(Apply(sys, e))
  {
    if e.id in sys.flights {
      assert FlightInv(sys.flights[e.id], 0);
    }
  }

  /** The reply that ends a dispatch leaves a complete list of replies and decides its result. */
  lemma LastReply(flight: Flight, outcome: Outcome, at: real)
    requires FlightInv(flight, 0) && !Again(flight, outcome)
    ensures EndedWell(Done(flight.(replies := flight.replies + [outcome]), ResultOf(outcome)),
                      if RecordOf(outcome, at).Some? then 1 else 0)
  {
    var replies := flight.replies + [outcome];
    assert forall i :: 0 <= i < |replies| - 1 ==> replies[i] == flight.replies[i];
    assert replies[|replies| - 1] == outcome;
  }

  lemma EndKeeps(sys: System, e: Event)
    requires DispatchInv(sys) && e.Reply? && e.id in sys.flights && !Again(sys.flights[e.id], e.outcome)
    ensures DispatchInv(Apply(sys, e))
  {
    var flight, record := sys.flights[e.id], RecordOf(e.outcome, e.at);
    var done := Done(flight.(replies := flight.replies + [e.outcome]), ResultOf(e.outcome));
    LastReply(flight, e.outcome, e.at);
    if record.Some? {
      LogGrows(sys.log, Entry(e.id, flight.service, record.value));
    }
    EndDispatch(sys, Apply(sys, e), e.id, done, if record.Some? then 1 else 0);
  }

  /** Moving a dispatch from the flights to the ended ones, with its reports. */
  lemma EndDispatch(sys: System, sys': System, id: nat, done: Done, reports: nat)
    requires DispatchInv(sys) && id in sys.flights
    requires sys'.flights == sys.flights - {id} && sys'.done == sys.done[id := done]
    requires forall i :: Count(sys'.log, i) == Count(sys.log, i) + if i == id then reports else 0
    requires EndedWell(done, reports)
    ensures DispatchInv(sys')
  {
    assert FlightInv(sys.flights[id], Count(sys.log, id));
  }

  lemma {:induction false} RunKeeps(events: seq<Event>, clock: real)
    requires Monotone(events) && (events == [] || events[|events| - 1].at == clock)
    ensures Inv(Run(events), clock)
  {
    if events != [] {
      var front, e := events[..|events| - 1], events[|events| - 1];
      var before := if front == [] then clock else front[|front| - 1].at;
      assert front != [] ==> front[|front| - 1] == events[|events| - 2];
      RunKeeps(front, before);
      match e {
        case Begin(_, _, _, _) => BeginKeeps(Run(front), e, before);
        case Reply(_, _, _) => ReplyKeeps(Run(front), e, before);
        case Peek(_) => PeekKeeps(Run(front), e, before);
      }
    }
  }

  /**
   In every interleaving each ended dispatch was either rejected with no attempt and no report, or made
   as many attempts as the rule says, yields the last one's outcome and was reported exactly once (not
   at all when an exception escaped); and each service's breaker is a function of that service's reports.
   */
  lemma InterleavedDispatches(events: seq<Event>, now: real)
    requires Monotone(events) && forall i :: 0 <= i < |events| ==> events[i].at <= now
    ensures var sys := Run(events);
            && (forall id :: id in sys.done ==>
                  EndedWell(sys.done[id], Count(sys.log, id)) && sys.done[id].result != Exhausted)
            && (forall i :: 0 <= i < |sys.log| ==> Justified(sys.done, sys.log[i]))
            && (forall id :: id in sys.flights ==>
                  Count(sys.log, id) == 0 && |sys.flights[id].replies| < Attempts(sys.flights[id].isGet))
            && (forall service ::
                  Observe(Get(sys, service), DEFAULTS, now).state == Answer(Of(sys.log, service), DEFAULTS, now))
  {
    var clock := if events == [] then now else events[|events| - 1].at;
    RunKeeps(events, clock);
    var sys := Run(events);
    forall service
      ensures Observe(Get(sys, service), DEFAULTS, now).state == Answer(Of(sys.log, service), DEFAULTS, now)
    {
      TracksAnswers(Get(sys, service), Of(sys.log, service), DEFAULTS, clock, now);
    }
  }

  // "One probe request" in HALF_OPEN is not enforced.

  predicate Fresh(sys: System, id: nat) {
    id !in sys.flights && id !in sys.done
  }

  predicate Until(events: seq<Event>, now: real) {
    forall i :: 0 <= i < |events| ==> events[i].at <= now
  }

  /** What the run's reports about a service mean for a reader at `now`. */
  function Seen(events: seq<Event>, service: string, now: real): CircuitState {
    Answer(Of(Run(events).log, service), Config(5, 30.0), now)
  }

  /** After any run a new request goes to the upstream if and only if the reports so far do not mean OPEN. */
  lemma AdmittedIff(events: seq<Event>, id: nat, service: string, isGet: bool, now: real)
    requires Monotone(events) && Until(events, now) && Fresh(Run(events), id)
    ensures var sys := Run(events + [Begin(id, service, isGet, now)]);
            && sys.log == Run(events).log
            && if Seen(events, service, now).Open?
               then sys.flights == Run(events).flights
                    && sys.done == Run(events).done[id := Done(Flight(service, isGet, []), Rejected)]
               else sys.flights == Run(events).flights[id := Flight(service, isGet, [])] && sys.done == Run(events).done
  {
    InterleavedDispatches(events, now);
    assert (events + [Begin(id, service, isGet, now)])[..|events|] == events;
  }

  /**
   Once the timeout has elapsed, every request is a probe until one of them reports: whatever else happens,
   whoever else was admitted before and however much later it arrives.
   */
  lemma EveryRequestProbes(
    events: seq<Event>, more: seq<Event>, service: string, since: real, id: nat, isGet: bool, now: real)
    requires Monotone(events + more) && Until(events + more, now) && since <= now
    requires Seen(events, service, since).HalfOpen?
    requires Of(Run(events + more).log, service) == Of(Run(events).log, service)
    requires Fresh(Run(events + more), id)
    ensures id in Run(events + more + [Begin(id, service, isGet, now)]).flights
    ensures Run(events + more).flights.Keys <= Run(events + more + [Begin(id, service, isGet, now)]).flights.Keys
  {
    AdmittedIff(events + more, id, service, isGet, now);
  }

  function Failures(n: nat): seq<Record> {
    if n == 0 then [] else Failures(n - 1) + [Failure(0.0)]
  }

  lemma {:induction false} FailuresStreak(n: nat)
    ensures Streak(Failures(n)) == n
    ensures n > 0 ==> Failures(n)[|Failures(n)| - 1] == Failure(0.0)
  {
    if n > 0 {
      FailuresStreak(n - 1);
      assert Failures(n)[..|Failures(n)| - 1] == Failures(n - 1);
    }
  }

  lemma RunSnoc(events: seq<Event>, e: Event)
    ensures Run(events + [e]) == Apply(Run(events), e)
  {
    assert (events + [e])[..|events|] == events;
  }

  /** n dispatches failed at time 0 and none is left. */
  ghost predicate Failed(sys: System, n: nat, service: string) {
    sys.flights == map[] && (forall id :: id >= n ==> id !in sys.done) && Of(sys.log, service) == Failures(n)
  }

  lemma FailingOnce(sys: System, n: nat, service: string)
    requires Failed(sys, n, service) && !Observe(Get(sys, service), DEFAULTS, 0.0).state.Open?
    ensures var begun := Apply(sys, Begin(n, service, false, 0.0));
            Failed(Apply(begun, Event.Reply(n, Response(503), 0.0)), n + 1, service)
  {
    LogGrows(sys.log, Entry(n, service, Failure(0.0)));
  }

  lemma StillClosed(events: seq<Event>, n: nat, service: string)
    requires Monotone(events) && Until(events, 0.0) && Failed(Run(events), n, service) && n < DEFAULTS.threshold
    ensures Observe(Get(Run(events), service), DEFAULTS, 0.0).state.Closed?
  {
    FailuresStreak(n);
    InterleavedDispatches(events, 0.0);
  }

  lemma OneMoreFailure(events: seq<Event>, n: nat, service: string) returns (next: seq<Event>)
    requires Monotone(events) && Until(events, 0.0) && Failed(Run(events), n, service) && n < DEFAULTS.threshold
    ensures Monotone(next) && Until(next, 0.0) && Failed(Run(next), n + 1, service)
  {
    var begin, reply := Begin(n, service, false, 0.0), Event.Reply(n, Response(503), 0.0);
    StillClosed(events, n, service);
    FailingOnce(Run(events), n, service);
    RunSnoc(events, begin);
    RunSnoc(events + [begin], reply);
    next := events + [begin] + [reply];
  }

  /** Some run of n dispatches to one service that fail at time 0. */
  lemma {:induction false} FailingRun(n: nat, service: string) returns (events: seq<Event>)
    requires n <= DEFAULTS.threshold
    ensures Monotone(events) && Until(events, 0.0) && Failed(Run(events), n, service)
  {
    events := [];
    if n > 0 {
      events := FailingRun(n - 1, service);
      events := OneMoreFailure(events, n - 1, service);
    }
  }

  lemma BothAdmitted(events: seq<Event>, service: string)
    requires Monotone(events) && Until(events, 0.0) && Failed(Run(events), 5, service)
    ensures Seen(events, service, 29.0).Open?
    ensures var first, second := Begin(5, service, true, 30.0), Begin(6, service, true, 30.0);
            Run(events + [first] + [second]).flights.Keys == {5, 6}
  {
    var first := Begin(5, service, true, 30.0);
    FailuresStreak(5);
    assert Seen(events, service, 30.0).HalfOpen?;
    AdmittedIff(events, 5, service, true, 30.0);
    assert Run(events + [first]).flights.Keys == {5} && Seen(events + [first], service, 30.0).HalfOpen?;
    AdmittedIff(events + [first], 6, service, true, 30.0);
  }

  /** A run in which five requests have failed at 0 and, thirty seconds later, two are at the upstream at once. */
  lemma TwoProbes(service: string) returns (events: seq<Event>)
    ensures var first, second := Begin(5, service, true, 30.0), Begin(6, service, true, 30.0);
            && Monotone(events + [first] + [second])
            && Of(Run(events).log, service) == Failures(5) && Seen(events, service, 29.0).Open?
            && Run(events + [first] + [second]).flights.Keys == {5, 6}
  {
    events := FailingRun(5, service);
    BothAdmitted(events, service);
  }
}
