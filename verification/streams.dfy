/** Whole runs of the broadcaster, seen from one connection. */
module Streams {
  import opened Broadcasting

  datatype Op<U, E> =
    | Open(user: U)
    | Publish(e: E, targets: seq<U>)
    | Take(user: U, id: nat)
    | Close(user: U, id: nat)

  /** The latest step outermost. */
  datatype Trace<U, E> = Start | Then(before: Trace<U, E>, op: Op<U, E>)

  ghost function Opens<U, E>(t: Trace<U, E>): nat {
    if t.Start? then 0 else Opens(t.before) + if t.op.Open? then 1 else 0
  }

  ghost function Run<U, E>(t: Trace<U, E>): Queues<U, E> {
    if t.Start? then map[]
    else
      var queues := Run(t.before);
      match t.op
      case Open(user) => Opened(queues, user, Opens(t))
      case Publish(e, targets) => Delivered(queues, e, targets)
      case Take(user, id) => Taken(queues, user, id)
      case Close(user, id) => Closed(queues, user, id)
  }

  ghost function QueueOf<U, E>(queues: Queues<U, E>, user: U, id: nat): seq<E> {
    if user in queues && id in queues[user] then queues[user][id] else []
  }

  ghost predicate IsOpen<U, E>(queues: Queues<U, E>, user: U, id: nat) {
    user in queues && id in queues[user]
  }

  /** What this connection's client has been sent. */
  ghost function Received<U, E>(t: Trace<U, E>, user: U, id: nat): seq<E> {
    if t.Start? then []
    else
      var queue := QueueOf(Run(t.before), user, id);
      Received(t.before, user, id) + if t.op == Take(user, id) && queue != [] then [queue[0]] else []
  }

  ghost predicate DistinctTargets<U>(targets: seq<U>) {
    forall i, j :: 0 <= i < j < |targets| ==> targets[i] != targets[j]
  }

  ghost predicate Deduplicated<U, E>(t: Trace<U, E>) {
    t.Then? ==> Deduplicated(t.before) && (t.op.Publish? ==> DistinctTargets(t.op.targets))
  }

  /** The events aimed at the user while this connection was open. */
  ghost function Offered<U, E>(t: Trace<U, E>, user: U, id: nat): seq<E> {
    if t.Start? then []
    else
      Offered(t.before, user, id)
      + if t.op.Publish? && user in t.op.targets && IsOpen(Run(t.before), user, id) then [t.op.e] else []
  }

  /** Those of them whose own put found room in the queue. */
  ghost function Accepted<U, E>(t: Trace<U, E>, user: U, id: nat): seq<E> {
    if t.Start? then []
    else
      var fits := IsOpen(Run(t.before), user, id) && |QueueOf(Run(t.before), user, id)| < 100;
      Accepted(t.before, user, id) + if t.op.Publish? && user in t.op.targets && fits then [t.op.e] else []
  }

  /** How many of them arrived while its queue was full. */
  ghost function Overflows<U, E>(t: Trace<U, E>, user: U, id: nat): nat {
    if t.Start? then 0
    else
      Overflows(t.before, user, id)
      + if t.op.Publish? && user in t.op.targets && |QueueOf(Run(t.before), user, id)| >= 100 then 1 else 0
  }

  /** xs is ys with some elements left out. */
  ghost predicate Subsequence<E>(xs: seq<E>, ys: seq<E>) {
    if ys == [] then xs == []
    else
      || (xs != [] && xs[|xs| - 1] == ys[|ys| - 1] && Subsequence(xs[..|xs| - 1], ys[..|ys| - 1]))
      || Subsequence(xs, ys[..|ys| - 1])
  }

  lemma SubsequenceGrows<E>(xs: seq<E>, ys: seq<E>, e: E)
    requires Subsequence(xs, ys)
    ensures Subsequence(xs + [e], ys + [e]) && Subsequence(xs, ys + [e])
  {
    assert (xs + [e])[..|xs|] == xs && (ys + [e])[..|ys|] == ys;
  }

  /** Distinct targets: every open connection of a target gets exactly one put, every other queue none. */
  lemma {:induction false} DeliveredTo<U, E>(queues: Queues<U, E>, e: E, targets: seq<U>, user: U, id: nat)
    requires DistinctTargets(targets)
    ensures IsOpen(Delivered(queues, e, targets), user, id) <==> IsOpen(queues, user, id)
    ensures IsOpen(queues, user, id) ==>
              QueueOf(Delivered(queues, e, targets), user, id)
                == if user in targets then Put(QueueOf(queues, user, id), e) else QueueOf(queues, user, id)
  {
    if targets != [] {
      var front := targets[..|targets| - 1];
      DeliveredTo(queues, e, front, user, id);
      assert targets == front + [targets[|front|]];
      assert forall i :: 0 <= i < |front| ==> front[i] != targets[|front|];
    }
  }

  lemma {:induction false} NotYetOpen<U, E>(t: Trace<U, E>, user: U, id: nat)
    requires id > Opens(t) && Deduplicated(t)
    ensures !IsOpen(Run(t), user, id) && Received(t, user, id) == [] && Accepted(t, user, id) == []
  {
    if t.Then? {
      NotYetOpen(t.before, user, id);
      if t.op.Publish? {
        DeliveredTo(Run(t.before), t.op.e, t.op.targets, user, id);
      }
    }
  }

  /** One connection's view of one step. */
  lemma StepView<U, E>(t: Trace<U, E>, user: U, id: nat)
    requires t.Then? && Deduplicated(t) && IsOpen(Run(t), user, id)
    ensures t.op.Open? && t.op.user == user && id == Opens(t) ==> QueueOf(Run(t), user, id) == []
    ensures !(t.op.Open? && t.op.user == user && id == Opens(t)) ==>
              IsOpen(Run(t.before), user, id)
              && var q, q' := QueueOf(Run(t.before), user, id), QueueOf(Run(t), user, id);
                 if t.op.Publish? && user in t.op.targets then q' == Put(q, t.op.e)
                 else if t.op == Take(user, id) && q != [] then q' == q[1..]
                 else q' == q
  {
    if t.op.Publish? {
      DeliveredTo(Run(t.before), t.op.e, t.op.targets, user, id);
    }
  }

  /** A connection opens by its own user's subscription and ends by its own unsubscription, and by nothing else. */
  lemma OpenExactly<U, E>(t: Trace<U, E>, user: U, id: nat)
    requires t.Then? && Deduplicated(t)
    ensures IsOpen(Run(t), user, id)
       <==> || (t.op == Open(user) && id == Opens(t))
            || (IsOpen(Run(t.before), user, id) && t.op != Close(user, id))
  {
    if t.op.Publish? {
      DeliveredTo(Run(t.before), t.op.e, t.op.targets, user, id);
    }
  }

  /** While a connection stays open, a put or a take moves its stream and the accepted events alike. */
  lemma StreamStep<U, E>(t: Trace<U, E>, user: U, id: nat)
    requires t.Then? && Deduplicated(t) && IsOpen(Run(t), user, id) && IsOpen(Run(t.before), user, id)
    requires !(t.op.Open? && t.op.user == user && id == Opens(t))
    requires Received(t.before, user, id) + QueueOf(Run(t.before), user, id) == Accepted(t.before, user, id)
    ensures Received(t, user, id) + QueueOf(Run(t), user, id) == Accepted(t, user, id)
  {
    var sent, q := Received(t.before, user, id), QueueOf(Run(t.before), user, id);
    assert sent + [] == sent && Accepted(t.before, user, id) + [] == Accepted(t.before, user, id);
    StepView(t, user, id);
    if t.op.Publish? && user in t.op.targets {
      assert sent + (q + [t.op.e]) == sent + q + [t.op.e];
    } else if t.op == Take(user, id) && q != [] {
      assert sent + [q[0]] + q[1..] == sent + q;
    }
  }

  /**
   What an open connection's client was sent, followed by what still waits for it, is exactly the list of
   events aimed at its user since it connected whose own put found room, in order; what a closed one was
   sent is the beginning of that list.
   */
  lemma {:induction false} StreamFaithful<U, E>(t: Trace<U, E>, user: U, id: nat)
    requires Deduplicated(t)
    ensures var queue := QueueOf(Run(t), user, id);
            && |queue| <= 100
            && if IsOpen(Run(t), user, id) then Received(t, user, id) + queue == Accepted(t, user, id)
               else Received(t, user, id) <= Accepted(t, user, id)
  {
    if t.Then? {
      StreamFaithful(t.before, user, id);
      var sent, q := Received(t.before, user, id), QueueOf(Run(t.before), user, id);
      var accepted := Accepted(t.before, user, id);
      assert sent + [] == sent && accepted + [] == accepted;
      if !IsOpen(Run(t), user, id) {
        OpenExactly(t, user, id);
      } else if t.op.Open? && t.op.user == user && id == Opens(t) {
        NotYetOpen(t.before, user, id);
      } else {
        StepView(t, user, id);
        StreamStep(t, user, id);
      }
    }
  }

  /** So of the offered events, in order, exactly those that met a full queue are missing. */
  lemma {:induction false} LossesAreOverflows<U, E>(t: Trace<U, E>, user: U, id: nat)
    ensures Subsequence(Accepted(t, user, id), Offered(t, user, id))
    ensures |Accepted(t, user, id)| + Overflows(t, user, id) == |Offered(t, user, id)|
    ensures Overflows(t, user, id) == 0 ==> Accepted(t, user, id) == Offered(t, user, id)
  {
    if t.Then? {
      LossesAreOverflows(t.before, user, id);
      var accepted, offered := Accepted(t.before, user, id), Offered(t.before, user, id);
      assert accepted + [] == accepted && offered + [] == offered;
      if t.op.Publish? {
        SubsequenceGrows(accepted, offered, t.op.e);
      }
    }
  }

  lemma {:induction false} DeliveredKeys<U, E>(queues: Queues<U, E>, e: E, targets: seq<U>)
    requires forall u :: u in queues ==> queues[u].Keys != {}
    ensures Delivered(queues, e, targets).Keys == queues.Keys
    ensures forall u :: u in queues ==> Delivered(queues, e, targets)[u].Keys == queues[u].Keys
  {
    if targets != [] {
      var front := targets[..|targets| - 1];
      var before, user := Delivered(queues, e, front), targets[|front|];
      DeliveredKeys(queues, e, front);
      if user in before {
        assert PutAll(before[user], e).Keys == before[user].Keys;
      }
    }
  }

  /** In every run no user's bucket is ever left empty, whichever connections close in whatever order. */
  lemma {:induction false} NoEmptyBucket<U, E>(t: Trace<U, E>)
    ensures forall u :: u in Run(t) ==> Run(t)[u].Keys != {}
  {
    if t.Then? {
      NoEmptyBucket(t.before);
      match t.op {
        case Publish(e, targets) => DeliveredKeys(Run(t.before), e, targets);
        case Open(user) => assert Opens(t) in Run(t)[user];
        case Take(user, id) => assert IsOpen(Run(t.before), user, id) ==> id in Run(t)[user];
        case Close(user, id) =>
          assert forall u :: u in Run(t) ==> Run(t)[u] != map[];
      }
    }
  }
}
