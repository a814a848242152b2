/** The Service Bus consumer: who is told about an event, and how often. */
module Consumer {
  import opened Wrappers
  import opened Broadcasting
  import opened Streams

  /** A decoded message body, as far as delivery depends on it. */
  datatype Message = Message(eventType: string, creatorId: Option<string>, assigneeId: Option<string>)

  predicate Present(id: Option<string>) { id.Some? && id.value != "" }

  /** Non-empty ids, each once, in order of first appearance. */
  function Deduped(ids: seq<Option<string>>): seq<string> {
    if ids == [] then []
    else
      var before, id := Deduped(ids[..|ids| - 1]), ids[|ids| - 1];
      if Present(id) && id.value !in before then before + [id.value] else before
  }

  /** The list is free of duplicates and holds exactly the ids present. */
  lemma {:induction false} DedupedExact(ids: seq<Option<string>>)
    ensures DistinctTargets(Deduped(ids))
    ensures forall u :: u in Deduped(ids) <==> Some(u) in ids && u != ""
  {
    if ids != [] {
      var front := ids[..|ids| - 1];
      DedupedExact(front);
      assert ids == front + [ids[|front|]];
    }
  }

  /** Position k is where u first stands. */
  predicate FirstAt(ids: seq<Option<string>>, k: nat, u: string) {
    k < |ids| && ids[k] == Some(u) && forall j :: 0 <= j < k ==> ids[j] != Some(u)
  }

  lemma FirstSnoc(front: seq<Option<string>>, id: Option<string>, k: nat, u: string)
    requires FirstAt(front, k, u) || (k == |front| && id == Some(u) && id !in front)
    ensures FirstAt(front + [id], k, u)
  {
    assert forall j :: 0 <= j < |front| ==> (front + [id])[j] == front[j];
  }

  /** In order of first appearance: `at` gives where each id first stands. */
  lemma {:induction false} DedupedOrder(ids: seq<Option<string>>) returns (at: seq<nat>)
    ensures |at| == |Deduped(ids)|
    ensures forall i, j :: 0 <= i < j < |at| ==> at[i] < at[j]
    ensures forall i :: 0 <= i < |at| ==> FirstAt(ids, at[i], Deduped(ids)[i])
  {
    at := [];
    if ids != [] {
      var front, id := ids[..|ids| - 1], ids[|ids| - 1];
      assert ids == front + [id];
      at := DedupedOrder(front);
      DedupedExact(front);
      forall i | 0 <= i < |at| ensures FirstAt(ids, at[i], Deduped(front)[i]) {
        FirstSnoc(front, id, at[i], Deduped(front)[i]);
      }
      if Present(id) && id.value !in Deduped(front) {
        FirstSnoc(front, id, |front|, id.value);
        at := at + [|front|];
      }
    }
  }

  method CollectTargets(ids: seq<Option<string>>) returns (result: seq<string>)
    ensures result == Deduped(ids)
  {
    var seen: set<string> := {};
    result := [];
    for n := 0 to |ids|
      invariant result == Deduped(ids[..n])
      invariant forall u :: u in seen <==> u in result
    {
      assert ids[..n + 1][..n] == ids[..n];
      if Present(ids[n]) && ids[n].value !in seen {
        seen := seen + {ids[n].value};
        result := result + [ids[n].value];
      }
    }
    assert ids[..|ids|] == ids;
  }

  /** The three handlers; an unknown event type has no recipients. */
  function Targets(m: Message): seq<string> {
    if m.eventType == "task.created" then Deduped([m.assigneeId, m.creatorId])
    else if m.eventType == "task.status_changed" || m.eventType == "task.deleted"
    then Deduped([m.creatorId, m.assigneeId])
    else []
  }

  predicate Handled(m: Message) {
    m.eventType == "task.created" || m.eventType == "task.status_changed" || m.eventType == "task.deleted"
  }

  predicate Party(m: Message, user: string) {
    user != "" && (m.creatorId == Some(user) || m.assigneeId == Some(user))
  }

  /** Of a handled event exactly the creator and the assignee are told, each once; of any other nobody. */
  lemma TargetsAreParties(m: Message)
    ensures DistinctTargets(Targets(m))
    ensures forall u :: u in Targets(m) <==> Handled(m) && Party(m, u)
  {
    DedupedExact([m.assigneeId, m.creatorId]);
    DedupedExact([m.creatorId, m.assigneeId]);
  }

  datatype Settlement = Completed | Abandoned

  /** One message: handler, then acknowledge, then broadcast. A failing handler or acknowledgement abandons it. */
  method ProcessMessage(
    m: Message, number: nat, handlerOk: bool, completeOk: bool, broadcaster: Broadcaster<string, nat>)
    returns (settled: Settlement)
    requires broadcaster.Valid()
    modifies broadcaster`queues
    ensures broadcaster.Valid()
    ensures settled == if handlerOk && completeOk then Completed else Abandoned
    ensures broadcaster.queues
         == if settled.Completed? then Delivered(old(broadcaster.queues), number, Targets(m))
            else old(broadcaster.queues)
  {
    var targets: seq<string> := [];
    if !handlerOk {
      return Abandoned;
    }
    if m.eventType == "task.created" {
      targets := CollectTargets([m.assigneeId, m.creatorId]);
    } else if m.eventType == "task.status_changed" || m.eventType == "task.deleted" {
      targets := CollectTargets([m.creatorId, m.assigneeId]);
    }
    if !completeOk {
      return Abandoned;
    }
    broadcaster.Broadcast(number, targets);
    return Completed;
  }

  // Competing consumers on one bus, with redelivery, expiring locks, lost replies and crashes.

  datatype Delivery = Available | LockedBy(lease: nat) | Settled
  datatype Stage = Handling(message: nat) | Acknowledged(message: nat)

  /** The bus, the receives in progress (by lock lease), and everything that reached the broadcaster. */
  datatype State = State(bus: map<nat, Delivery>, workers: map<nat, Stage>, trace: Trace<string, nat>)

  datatype Step =
    | Receive(message: nat, lease: nat)
    | LockExpires(message: nat)
    | Fail(lease: nat)
    | Complete(lease: nat, replyArrives: bool)
    | Crash(lease: nat)
    | Announce(lease: nat)
    | Client(op: Op<string, nat>)

  predicate Enabled(s: State, step: Step) {
    match step
    case Receive(m, l) => m in s.bus && s.bus[m] == Available && l !in s.workers && LockedBy(l) !in s.bus.Values
    case LockExpires(m) => m in s.bus && s.bus[m].LockedBy?
    case Fail(l) => l in s.workers && s.workers[l].Handling? && s.workers[l].message in s.bus
    case Complete(l, _) => l in s.workers && s.workers[l].Handling? && s.workers[l].message in s.bus
    case Crash(l) => l in s.workers
    case Announce(l) => l in s.workers && s.workers[l].Acknowledged?
    case Client(op) => !op.Publish?
  }

  /** The bus settles a message only for the holder of its lock; otherwise complete and abandon both raise. */
  ghost function Apply(s: State, step: Step, messages: map<nat, Message>): State
    requires Enabled(s, step)
  {
    match step
    case Receive(m, l) => s.(bus := s.bus[m := LockedBy(l)], workers := s.workers[l := Handling(m)])
    case LockExpires(m) => s.(bus := s.bus[m := Available])
    case Fail(l) =>
      var m := s.workers[l].message;
      s.(bus := if s.bus[m] == LockedBy(l) then s.bus[m := Available] else s.bus, workers := s.workers - {l})
    case Complete(l, replyArrives) =>
      var m := s.workers[l].message;
      if s.bus[m] != LockedBy(l) then s.(workers := s.workers - {l})
      else
        s.(bus := s.bus[m := Settled],
        workers := if replyArrives then s.workers[l := Acknowledged(m)] else s.workers - {l})
    case Crash(l) => s.(workers := s.workers - {l})
    case Announce(l) =>
      var m := s.workers[l].message;
      var targets := if m in messages then Targets(messages[m]) else [];
      s.(workers := s.workers - {l}, trace := Then(s.trace, Publish(m, targets)))
    case Client(op) => s.(trace := Then(s.trace, op))
  }

  ghost predicate LegalRun(s: State, steps: seq<Step>, messages: map<nat, Message>)
    decreases |steps|
  {
    steps == [] || (Enabled(s, steps[0]) && LegalRun(Apply(s, steps[0], messages), steps[1..], messages))
  }

  ghost function RunSteps(s: State, steps: seq<Step>, messages: map<nat, Message>): State
    requires LegalRun(s, steps, messages)
    decreases |steps|
  {
    if steps == [] then s else RunSteps(Apply(s, steps[0], messages), steps[1..], messages)
  }

  /** How often a message was broadcast. */
  ghost function Broadcasts(t: Trace<string, nat>, message: nat): nat {
    if t.Start? then 0
    else Broadcasts(t.before, message) + if t.op.Publish? && t.op.e == message then 1 else 0
  }

  /** Every broadcast so far went to its message's own deduplicated parties. */
  ghost predicate Addressed(t: Trace<string, nat>, messages: map<nat, Message>) {
    t.Then? ==>
      && Addressed(t.before, messages)
      && (t.op.Publish? ==> t.op.targets == if t.op.e in messages then Targets(messages[t.op.e]) else [])
  }

  /** Two receives have both been told that the same message is settled. */
  predicate Acknowledges(s: State, k: nat, l: nat) {
    && k in s.workers && s.workers[k].Acknowledged?
    && l in s.workers && s.workers[l].Acknowledged?
    && s.workers[k].message == s.workers[l].message
  }

  /** An acknowledged or broadcast message is settled for good, and only one of the two at a time. */
  ghost predicate Inv(s: State, messages: map<nat, Message>) {
    && Addressed(s.trace, messages)
    && (forall l :: l in s.workers && s.workers[l].Acknowledged? ==>
          var m := s.workers[l].message;
          m in s.bus && s.bus[m] == Settled && Broadcasts(s.trace, m) == 0)
    && (forall k, l :: Acknowledges(s, k, l) ==> k == l)
    && (forall m :: Broadcasts(s.trace, m) <= 1)
    && (forall m :: Broadcasts(s.trace, m) == 1 ==> m in s.bus && s.bus[m] == Settled)
  }

  lemma AnnounceKeeps(s: State, l: nat, messages: map<nat, Message>)
    requires Inv(s, messages) && Enabled(s, Announce(l))
    ensures Inv(Apply(s, Announce(l), messages), messages)
  {
    var s' := Apply(s, Announce(l), messages);
    var m := s.workers[l].message;
    assert forall n :: Broadcasts(s'.trace, n) == Broadcasts(s.trace, n) + if n == m then 1 else 0;
    forall k | k in s'.workers && s'.workers[k].Acknowledged? ensures s'.workers[k].message != m {
      assert Acknowledges(s, k, l) <==> s.workers[k].message == m;
    }
    forall j, k | Acknowledges(s', j, k) ensures j == k {
      assert Acknowledges(s, j, k);
    }
  }

  lemma CompleteKeeps(s: State, l: nat, replyArrives: bool, messages: map<nat, Message>)
    requires Inv(s, messages) && Enabled(s, Complete(l, replyArrives))
    ensures Inv(Apply(s, Complete(l, replyArrives), messages), messages)
  {
    var s' := Apply(s, Complete(l, replyArrives), messages);
    forall j, k | Acknowledges(s', j, k) ensures j == k {
      assert j != l && k != l ==> Acknowledges(s, j, k);
    }
  }

  lemma StepKeeps(s: State, step: Step, messages: map<nat, Message>)
    requires Inv(s, messages) && Enabled(s, step)
    ensures Inv(Apply(s, step, messages), messages)
  {
    var s' := Apply(s, step, messages);
    match step {
      case Announce(l) => AnnounceKeeps(s, l, messages);
      case Complete(l, replyArrives) => CompleteKeeps(s, l, replyArrives, messages);
      case _ =>
        assert forall m :: Broadcasts(s'.trace, m) == Broadcasts(s.trace, m);
        forall j, k | Acknowledges(s', j, k) ensures j == k {
          assert Acknowledges(s, j, k);
        }
    }
  }

  lemma {:induction false} RunKeeps(s: State, steps: seq<Step>, messages: map<nat, Message>)
    requires Inv(s, messages) && LegalRun(s, steps, messages)
    ensures Inv(RunSteps(s, steps, messages), messages)
    decreases |steps|
  {
    if steps != [] {
      StepKeeps(s, steps[0], messages);
      RunKeeps(Apply(s, steps[0], messages), steps[1..], messages);
    }
  }

  // What becomes of a message once the bus has settled it.

  predicate AckedFor(s: State, l: nat, m: nat) {
    l in s.workers && s.workers[l] == Acknowledged(m)
  }

  ghost predicate AboutToTell(s: State, m: nat) {
    exists l :: AckedFor(s, l, m)
  }

  ghost function Told(s: State, m: nat): nat {
    Broadcasts(s.trace, m) + if AboutToTell(s, m) then 1 else 0
  }

  predicate SettledIn(s: State, m: nat) {
    m in s.bus && s.bus[m] == Settled
  }

  /** The bus settles the message but the reply is lost, or the worker crashes between acknowledging and telling. */
  predicate Loses(s: State, step: Step, m: nat)
    requires Enabled(s, step)
  {
    match step
    case Complete(l, replyArrives) => !replyArrives && s.workers[l].message == m && s.bus[m] == LockedBy(l)
    case Crash(l) => AckedFor(s, l, m)
    case _ => false
  }

  ghost function Lost(s: State, steps: seq<Step>, messages: map<nat, Message>, m: nat): nat
    requires LegalRun(s, steps, messages)
    decreases |steps|
  {
    if steps == [] then 0
    else (if Loses(s, steps[0], m) then 1 else 0) + Lost(Apply(s, steps[0], messages), steps[1..], messages, m)
  }

  /** Between two states a step tells, loses and settles the message in step. */
  ghost predicate Accounts(s: State, s': State, lost: nat, m: nat) {
    Told(s', m) + lost + (if SettledIn(s, m) then 1 else 0) == Told(s, m) + if SettledIn(s', m) then 1 else 0
  }

  /** With at most one worker about to tell a message, that one leaving leaves none. */
  lemma LastToTell(s: State, s': State, l: nat, m: nat, messages: map<nat, Message>)
    requires Inv(s, messages) && AckedFor(s, l, m) && s'.workers == s.workers - {l}
    ensures AboutToTell(s, m) && !AboutToTell(s', m)
  {
    forall k ensures !AckedFor(s', k, m) {
      assert AckedFor(s', k, m) ==> Acknowledges(s, k, l);
    }
  }

  lemma SameToTell(s: State, s': State, m: nat)
    requires forall l :: AckedFor(s, l, m) <==> AckedFor(s', l, m)
    ensures AboutToTell(s, m) <==> AboutToTell(s', m)
  {
  }

  lemma AnnounceAccounts(s: State, l: nat, messages: map<nat, Message>, m: nat)
    requires Inv(s, messages) && Enabled(s, Announce(l))
    ensures Accounts(s, Apply(s, Announce(l), messages), 0, m)
  {
    var s' := Apply(s, Announce(l), messages);
    if s.workers[l].message == m {
      assert AckedFor(s, l, m);
      LastToTell(s, s', l, m, messages);
    } else {
      SameToTell(s, s', m);
    }
  }

  lemma CrashAccounts(s: State, l: nat, messages: map<nat, Message>, m: nat)
    requires Inv(s, messages) && Enabled(s, Crash(l))
    ensures Accounts(s, Apply(s, Crash(l), messages), if AckedFor(s, l, m) then 1 else 0, m)
  {
    var s' := Apply(s, Crash(l), messages);
    if AckedFor(s, l, m) {
      LastToTell(s, s', l, m, messages);
    } else {
      SameToTell(s, s', m);
    }
  }

  lemma CompleteAccounts(s: State, l: nat, replyArrives: bool, messages: map<nat, Message>, m: nat)
    requires Inv(s, messages) && Enabled(s, Complete(l, replyArrives))
    ensures Accounts(s, Apply(s, Complete(l, replyArrives), messages),
                     if Loses(s, Complete(l, replyArrives), m) then 1 else 0, m)
  {
    var s' := Apply(s, Complete(l, replyArrives), messages);
    if s.workers[l].message == m && s.bus[m] == LockedBy(l) {
      assert forall k :: !AckedFor(s, k, m);
      if replyArrives {
        assert AckedFor(s', l, m);
      } else {
        SameToTell(s, s', m);
      }
    } else {
      SameToTell(s, s', m);
    }
  }

  lemma StepAccounts(s: State, step: Step, messages: map<nat, Message>, m: nat)
    requires Inv(s, messages) && Enabled(s, step)
    ensures Accounts(s, Apply(s, step, messages), if Loses(s, step, m) then 1 else 0, m)
  {
    match step
    case Announce(l) => AnnounceAccounts(s, l, messages, m);
    case Crash(l) => CrashAccounts(s, l, messages, m);
    case Complete(l, replyArrives) => CompleteAccounts(s, l, replyArrives, messages, m);
    case _ => SameToTell(s, Apply(s, step, messages), m);
  }

  lemma {:induction false} RunAccounts(s: State, steps: seq<Step>, messages: map<nat, Message>, m: nat)
    requires Inv(s, messages) && LegalRun(s, steps, messages)
    ensures Accounts(s, RunSteps(s, steps, messages), Lost(s, steps, messages, m), m)
    decreases |steps|
  {
    if steps != [] {
      StepKeeps(s, steps[0], messages);
      StepAccounts(s, steps[0], messages, m);
      RunAccounts(Apply(s, steps[0], messages), steps[1..], messages, m);
    }
  }

  lemma {:induction false} StaysSettled(s: State, steps: seq<Step>, messages: map<nat, Message>, m: nat)
    requires LegalRun(s, steps, messages) && SettledIn(s, m)
    ensures SettledIn(RunSteps(s, steps, messages), m)
    decreases |steps|
  {
    if steps != [] {
      StaysSettled(Apply(s, steps[0], messages), steps[1..], messages, m);
    }
  }

  /**
   Every message a run settles is accounted for: broadcast, in the hands of the one worker about to broadcast
   it, or lost to a crash or a lost reply after the bus had settled it; exactly one of the three, once.
   */
  lemma SettledAccounted(bus: map<nat, Delivery>, messages: map<nat, Message>, steps: seq<Step>, m: nat)
    requires LegalRun(State(bus, map[], Start), steps, messages)
    ensures var start := State(bus, map[], Start);
            var end := RunSteps(start, steps, messages);
            Broadcasts(end.trace, m) + (if AboutToTell(end, m) then 1 else 0) + Lost(start, steps, messages, m)
            == if SettledIn(end, m) && !SettledIn(start, m) then 1 else 0
  {
    var start := State(bus, map[], Start);
    RunAccounts(start, steps, messages, m);
    assert Told(start, m) == 0;
    if SettledIn(start, m) {
      StaysSettled(start, steps, messages, m);
    }
  }

  /** A worker that fails while it holds the lock, and an expired lock, put the message back for another receive. */
  lemma Redelivered(s: State, l: nat, m: nat, messages: map<nat, Message>)
    requires m in s.bus && s.bus[m] == LockedBy(l)
    ensures Apply(s, LockExpires(m), messages).bus == s.bus[m := Available]
    ensures l in s.workers && s.workers[l] == Handling(m) ==> Apply(s, Fail(l), messages).bus == s.bus[m := Available]
  {
  }

  lemma {:induction false} AddressedDeduplicated(t: Trace<string, nat>, messages: map<nat, Message>)
    requires Addressed(t, messages)
    ensures Deduplicated(t)
  {
    if t.Then? {
      AddressedDeduplicated(t.before, messages);
      if t.op.Publish? && t.op.e in messages {
        TargetsAreParties(messages[t.op.e]);
      }
    }
  }

  /** How often a message stands in a stream. */
  ghost function Count(events: seq<nat>, message: nat): nat {
    if events == [] then 0
    else Count(events[..|events| - 1], message) + if events[|events| - 1] == message then 1 else 0
  }

  lemma CountAppend(events: seq<nat>, e: nat, message: nat)
    ensures Count(events + [e], message) == Count(events, message) + if e == message then 1 else 0
  {
    assert (events + [e])[..|events|] == events;
  }

  lemma {:induction false} CountPrefix(part: seq<nat>, events: seq<nat>, message: nat)
    requires part <= events
    ensures Count(part, message) <= Count(events, message)
  {
    if part == events {
    } else {
      CountPrefix(part, events[..|events| - 1], message);
    }
  }

  /** What a connection accepts comes from broadcasts addressed to its user. */
  lemma {:induction false} AcceptedOnce(
    t: Trace<string, nat>, messages: map<nat, Message>, user: string, id: nat, message: nat)
    requires Addressed(t, messages)
    ensures Count(Accepted(t, user, id), message) <= Broadcasts(t, message)
    ensures Count(Accepted(t, user, id), message) > 0 ==> message in messages && user in Targets(messages[message])
  {
    if t.Then? {
      AcceptedOnce(t.before, messages, user, id, message);
      var accepted := Accepted(t.before, user, id);
      assert accepted + [] == accepted;
      if t.op.Publish? && Accepted(t, user, id) != accepted {
        CountAppend(accepted, t.op.e, message);
      }
    }
  }

  /** Sent and waiting: everything a client of this connection has seen or will see of the run so far. */
  ghost function Stream(t: Trace<string, nat>, user: string, id: nat): seq<nat> {
    Received(t, user, id) + QueueOf(Run(t), user, id)
  }

  lemma StreamOnce(t: Trace<string, nat>, messages: map<nat, Message>, user: string, id: nat, m: nat)
    requires Addressed(t, messages) && Stream(t, user, id) <= Accepted(t, user, id)
    ensures Count(Stream(t, user, id), m) <= Broadcasts(t, m)
    ensures Count(Stream(t, user, id), m) > 0 ==> m in messages && Handled(messages[m]) && Party(messages[m], user)
  {
    CountPrefix(Stream(t, user, id), Accepted(t, user, id), m);
    AcceptedOnce(t, messages, user, id, m);
    if m in messages {
      TargetsAreParties(messages[m]);
    }
  }

  /**
   From bus to browser, over any redeliveries, expired locks, lost replies and crashes: each message is
   broadcast at most once, and a connection's stream holds, each at most once, only handled messages naming
   its user; while open it is exactly the list of those broadcast since it connected that found room.
   */
  lemma EndToEnd(bus: map<nat, Delivery>, messages: map<nat, Message>, steps: seq<Step>, user: string, id: nat)
    requires LegalRun(State(bus, map[], Start), steps, messages)
    ensures var t := RunSteps(State(bus, map[], Start), steps, messages).trace;
            && (forall m :: Broadcasts(t, m) <= 1)
            && (forall m :: Count(Stream(t, user, id), m) <= 1)
            && (forall m :: Count(Stream(t, user, id), m) > 0 ==>
                  m in messages && Handled(messages[m]) && Party(messages[m], user))
            && (IsOpen(Run(t), user, id) ==> Stream(t, user, id) == Accepted(t, user, id))
            && |Accepted(t, user, id)| + Overflows(t, user, id) == |Offered(t, user, id)|
  {
    var s := State(bus, map[], Start);
    RunKeeps(s, steps, messages);
    var t := RunSteps(s, steps, messages).trace;
    AddressedDeduplicated(t, messages);
    StreamFaithful(t, user, id);
    LossesAreOverflows(t, user, id);
    assert Stream(t, user, id) <= Accepted(t, user, id);
    forall m
      ensures Count(Stream(t, user, id), m) <= 1
      ensures Count(Stream(t, user, id), m) > 0 ==>
                m in messages && Handled(messages[m]) && Party(messages[m], user)
    {
      StreamOnce(t, messages, user, id, m);
    }
  }
}
