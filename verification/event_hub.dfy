/** The chaos controller's event hub: a slow subscriber is dropped, never given a gap. */
module EventHub {
  import opened Wrappers

  const QUEUE_MAXSIZE := 1000

  /** One subscriber's asyncio.Queue. What it has passed on and held is the published stretch [since, until). */
  class Queue<E> {
    var items: seq<E>
    ghost var taken: seq<E>
    ghost var since: nat
    ghost var until: nat

    constructor (ghost start: nat)
      ensures items == [] && taken == [] && since == until == start
    {
      items := [];
      taken, since, until := [], start, start;
    }

    /** taken followed by items is, without a gap, what was published from since to until. */
    ghost predicate GapFree(published: seq<E>)
      reads this
    {
      && since <= until <= |published|
      && taken + items == published[since..until]
      && |items| <= QUEUE_MAXSIZE
    }
  }

  class Hub<E> {
    var subscribers: set<Queue<E>>
    ghost var published: seq<E>
    ghost var created: set<Queue<E>>

    /** Every queue ever handed out is gap-free; a registered one has everything since it subscribed. */
    ghost predicate Valid()
      reads this, created
    {
      && subscribers <= created
      && (forall q :: q in created ==> q.GapFree(published))
      && (forall q :: q in subscribers ==> q.until == |published|)
    }

    constructor ()
      ensures Valid() && subscribers == {} && published == [] && created == {}
    {
      subscribers, published, created := {}, [], {};
    }

    method Subscribe() returns (q: Queue<E>)
      requires Valid()
      modifies this
      ensures Valid() && fresh(q) && published == old(published)
      ensures subscribers == old(subscribers) + {q} && created == old(created) + {q}
      ensures q.since == |published| && q.taken == q.items == []
    {
      q := new Queue(|published|);
      subscribers := subscribers + {q};
      created := created + {q};
    }

    method Unsubscribe(q: Queue<E>)
      requires Valid()
      modifies this
      ensures Valid() && subscribers == old(subscribers) - {q}
      ensures published == old(published) && created == old(created)
    {
      subscribers := subscribers - {q};
    }

    /** put_nowait on every subscriber; those whose queue is full are dropped afterwards. */
    method Publish(e: E)
      requires Valid()
      modifies this, subscribers
      ensures Valid() && published == old(published) + [e] && created == old(created)
      ensures forall q :: q in old(subscribers) ==>
                if |old(q.items)| < QUEUE_MAXSIZE
                then q in subscribers && q.items == old(q.items) + [e]
                else q !in subscribers && q.items == old(q.items)
      ensures subscribers <= old(subscribers)
      ensures forall q :: q in old(subscribers) ==> q.taken == old(q.taken) && q.since == old(q.since)
    {
      var dead := PutNowait(e);
      Republished(e);
      subscribers := subscribers - dead;
      published := published + [e];
    }

    /** The loop over the subscribers; it returns those that were full. */
    method PutNowait(e: E) returns (dead: set<Queue<E>>)
      modifies subscribers
      ensures dead <= subscribers
      ensures forall q :: q in subscribers ==> q.taken == old(q.taken) && q.since == old(q.since)
      ensures forall q :: q in dead ==>
                |old(q.items)| >= QUEUE_MAXSIZE && q.items == old(q.items) && q.until == old(q.until)
      ensures forall q :: q in subscribers && q !in dead ==>
                |old(q.items)| < QUEUE_MAXSIZE && q.items == old(q.items) + [e] && q.until == old(q.until) + 1
    {
      dead := {};
      var todo := subscribers;
      while todo != {}
        invariant todo <= subscribers && dead <= subscribers - todo
        invariant forall q :: q in subscribers ==> q.taken == old(q.taken) && q.since == old(q.since)
        invariant forall q :: q in todo || q in dead ==> q.items == old(q.items) && q.until == old(q.until)
        invariant forall q :: q in dead ==> |old(q.items)| >= QUEUE_MAXSIZE
        invariant forall q :: q in subscribers - todo - dead ==>
                    |old(q.items)| < QUEUE_MAXSIZE && q.items == old(q.items) + [e] && q.until == old(q.until) + 1
        decreases |todo|
      {
        var q :| q in todo;
        if |q.items| < QUEUE_MAXSIZE {
          q.items := q.items + [e];
          q.until := q.until + 1;
        } else {
          dead := dead + {q};
        }
        todo := todo - {q};
      }
    }

    /** Between the loop and the bookkeeping: every queue is gap-free with respect to the longer history. */
    twostate lemma Republished(e: E)
      requires old(Valid()) && published == old(published) && created == old(created)
      requires forall q :: q in created ==>
                 && q.taken == old(q.taken) && q.since == old(q.since)
                 && ((q.items == old(q.items) && q.until == old(q.until))
                     || (q.items == old(q.items) + [e] && q.until == old(q.until) + 1
                         && old(q.until) == |published| && |old(q.items)| < QUEUE_MAXSIZE))
      ensures forall q :: q in created ==> q.GapFree(published + [e])
    {
      forall q | q in created ensures q.GapFree(published + [e]) {
        assert old(q.GapFree(published));
        var stretch := (published + [e])[q.since..q.until];
        if q.until == old(q.until) {
          assert stretch == published[q.since..q.until];
        } else {
          assert stretch == published[q.since..old(q.until)] + [e];
          assert q.taken + q.items == old(q.taken + q.items) + [e];
        }
      }
    }

    /** One turn of stream(): the next event, or None for a keepalive. Dropped queues may still be drained. */
    method Next(q: Queue<E>) returns (e: Option<E>)
      requires Valid() && q in created
      modifies q
      ensures Valid()
      ensures if old(q.items) == [] then e == None && q.taken == old(q.taken) && q.items == []
              else
                && e == Some(old(q.items)[0])
                && q.taken == old(q.taken) + [old(q.items)[0]] && q.items == old(q.items)[1..]
      ensures q.since == old(q.since)
    {
      if q.items == [] {
        return None;
      }
      e := Some(q.items[0]);
      ghost var before := q.taken + q.items;
      q.taken := q.taken + [q.items[0]];
      q.items := q.items[1..];
      assert q.taken + q.items == before;
    }
  }

  // Any use of the hub, as its clients see it.

  /** Clients are numbered in the order they subscribe. */
  datatype Op<E> = Subscribe | Publish(e: E) | Next(client: nat) | Unsubscribe(client: nat)

  function Published<E>(script: seq<Op<E>>): seq<E> {
    if script == [] then []
    else
      var op := script[|script| - 1];
      Published(script[..|script| - 1]) + if op.Publish? then [op.e] else []
  }

  /** For each client, how many events had been published when it subscribed. */
  function Joined<E>(script: seq<Op<E>>): (joined: seq<nat>)
    ensures forall i :: 0 <= i < |joined| ==> joined[i] <= |Published(script)|
  {
    if script == [] then []
    else
      var before := script[..|script| - 1];
      Joined(before) + if script[|script| - 1].Subscribe? then [|Published(before)|] else []
  }

  /** Is the client still subscribed? Only its own Unsubscribe or an event meeting a full queue ends that. */
  predicate Registered<E>(script: seq<Op<E>>, client: nat)
    decreases |script|
  {
    script != [] &&
    var before, op := script[..|script| - 1], script[|script| - 1];
    if op.Subscribe? && client == |Joined(before)| then true
    else
      && Registered(before, client)
      && (op.Publish? ==> Unread(before, client) < 1000)
      && op != Unsubscribe(client)
  }

  /** How many events wait for the client. */
  function Unread<E>(script: seq<Op<E>>, client: nat): nat
    decreases |script|
  {
    if script == [] then 0
    else
      var before, op := script[..|script| - 1], script[|script| - 1];
      var unread := Unread(before, client);
      match op
      case Subscribe => unread
      case Publish(_) => if Registered(before, client) && unread < 1000 then unread + 1 else unread
      case Next(c) => if c == client && unread > 0 then unread - 1 else unread
      case Unsubscribe(_) => unread
  }

  /** How many events had been published when the client's registration ended, or have been by now. */
  function Left<E>(script: seq<Op<E>>, client: nat): (left: nat)
    ensures left <= |Published(script)|
    ensures client < |Joined(script)| ==> Joined(script)[client] <= left
  {
    if script == [] then 0
    else if Registered(script, client) then |Published(script)|
    else Left(script[..|script| - 1], client)
  }

  /** One client's queue after a script. */
  ghost predicate Follows<E>(
    hub: Hub<E>, q: Queue<E>, consumed: seq<E>, script: seq<Op<E>>, client: nat)
    requires client < |Joined(script)|
    reads hub, q
  {
    && q.taken == consumed && q.since == Joined(script)[client] && q.until == Left(script, client)
    && |q.items| == Unread(script, client)
    && (q in hub.subscribers <==> Registered(script, client))
  }

  /** The clients' queues and what each has consumed, after a script. */
  ghost predicate AllFollow<E>(hub: Hub<E>, queues: seq<Queue<E>>, consumed: seq<seq<E>>, script: seq<Op<E>>)
    reads hub, hub.created, queues
  {
    && hub.Valid() && hub.published == Published(script)
    && |queues| == |consumed| == |Joined(script)|
    && (forall i, j :: 0 <= i < j < |queues| ==> queues[i] != queues[j])
    && (forall i :: 0 <= i < |queues| ==>
          queues[i] in hub.created && Follows(hub, queues[i], consumed[i], script, i))
  }

  lemma Snoc<E>(script: seq<Op<E>>, op: Op<E>)
    ensures Published(script + [op]) == Published(script) + if op.Publish? then [op.e] else []
    ensures Joined(script + [op]) == Joined(script) + if op.Subscribe? then [|Published(script)|] else []
  {
    assert (script + [op])[..|script|] == script;
  }

  /** What one more operation means for a client. */
  lemma ClientSnoc<E>(script: seq<Op<E>>, op: Op<E>, client: nat)
    ensures Registered(script + [op], client)
       <==> || (op.Subscribe? && client == |Joined(script)|)
            || (Registered(script, client) && op != Unsubscribe(client)
                && (op.Publish? ==> Unread(script, client) < 1000))
    ensures Unread(script + [op], client)
         == if op.Publish? && Registered(script, client) && Unread(script, client) < 1000
            then Unread(script, client) + 1
            else if op == Next(client) && Unread(script, client) > 0 then Unread(script, client) - 1
            else Unread(script, client)
    ensures Left(script + [op], client)
         == if Registered(script + [op], client) then |Published(script + [op])| else Left(script, client)
  {
    assert (script + [op])[..|script|] == script;
  }

  /** Nothing waits for a client that does not exist, and it is not registered. */
  lemma {:induction false} NotYet<E>(script: seq<Op<E>>, client: nat)
    requires client >= |Joined(script)|
    ensures !Registered(script, client) && Unread(script, client) == 0
    decreases |script|
  {
    if script != [] {
      NotYet(script[..|script| - 1], client);
    }
  }

  /** The new client has everything to come; for the others nothing changes. */
  method StepSubscribe<E>(hub: Hub<E>, queues: seq<Queue<E>>, consumed: seq<seq<E>>, ghost script: seq<Op<E>>)
    returns (q: Queue<E>)
    requires AllFollow(hub, queues, consumed, script)
    modifies hub
    ensures fresh(q) && hub.created == old(hub.created) + {q}
    ensures AllFollow(hub, queues + [q], consumed + [[]], script + [Subscribe])
  {
    Snoc(script, Subscribe);
    q := hub.Subscribe();
    NotYet(script, |queues|);
    ClientSnoc(script, Subscribe, |queues|);
    forall i | 0 <= i < |queues| ensures Follows(hub, queues[i], consumed[i], script + [Subscribe], i) {
      ClientSnoc(script, Subscribe, i);
    }
  }

  method StepPublish<E>(hub: Hub<E>, queues: seq<Queue<E>>, consumed: seq<seq<E>>, ghost script: seq<Op<E>>, e: E)
    requires AllFollow(hub, queues, consumed, script)
    modifies hub, hub.subscribers
    ensures hub.created == old(hub.created) && AllFollow(hub, queues, consumed, script + [Publish(e)])
  {
    Snoc(script, Publish(e));
    hub.Publish(e);
    forall i | 0 <= i < |queues| ensures Follows(hub, queues[i], consumed[i], script + [Publish(e)], i) {
      ClientSnoc(script, Publish(e), i);
    }
  }

  method StepNext<E>(
    hub: Hub<E>, queues: seq<Queue<E>>, consumed: seq<seq<E>>, ghost script: seq<Op<E>>, i: nat)
    returns (seen: seq<E>)
    requires AllFollow(hub, queues, consumed, script) && i < |queues|
    modifies queues[i]
    ensures AllFollow(hub, queues, consumed[i := seen], script + [Next(i)])
  {
    Snoc(script, Next(i));
    var e := hub.Next(queues[i]);
    seen := if e.Some? then consumed[i] + [e.value] else consumed[i];
    forall j | 0 <= j < |queues| ensures Follows(hub, queues[j], consumed[i := seen][j], script + [Next(i)], j) {
      ClientSnoc(script, Next(i), j);
    }
  }

  method StepUnsubscribe<E>(
    hub: Hub<E>, queues: seq<Queue<E>>, ghost consumed: seq<seq<E>>, ghost script: seq<Op<E>>, i: nat)
    requires AllFollow(hub, queues, consumed, script) && i < |queues|
    modifies hub
    ensures hub.created == old(hub.created) && AllFollow(hub, queues, consumed, script + [Unsubscribe(i)])
  {
    Snoc(script, Unsubscribe(i));
    hub.Unsubscribe(queues[i]);
    forall j | 0 <= j < |queues| ensures Follows(hub, queues[j], consumed[j], script + [Unsubscribe(i)], j) {
      ClientSnoc(script, Unsubscribe(i), j);
    }
  }

  /** An operation on a client that does not exist changes nothing. */
  lemma Skip<E>(hub: Hub<E>, queues: seq<Queue<E>>, consumed: seq<seq<E>>, script: seq<Op<E>>, op: Op<E>)
    requires AllFollow(hub, queues, consumed, script) && (op.Next? || op.Unsubscribe?) && op.client >= |queues|
    ensures AllFollow(hub, queues, consumed, script + [op])
  {
    Snoc(script, op);
    forall i | 0 <= i < |queues| ensures Follows(hub, queues[i], consumed[i], script + [op], i) {
      ClientSnoc(script, op, i);
    }
  }

  method Step<E>(hub: Hub<E>, queues: seq<Queue<E>>, consumed: seq<seq<E>>, ghost script: seq<Op<E>>, op: Op<E>)
    returns (queues': seq<Queue<E>>, consumed': seq<seq<E>>)
    requires AllFollow(hub, queues, consumed, script)
    modifies hub, hub.created
    ensures fresh(hub.created - old(hub.created))
    ensures AllFollow(hub, queues', consumed', script + [op])
  {
    queues', consumed' := queues, consumed;
    match op {
      case Subscribe =>
        var q := StepSubscribe(hub, queues, consumed, script);
        queues', consumed' := queues + [q], consumed + [[]];
      case Publish(e) =>
        StepPublish(hub, queues, consumed, script, e);
      case Next(i) =>
        if i < |queues| {
          var seen := StepNext(hub, queues, consumed, script, i);
          consumed' := consumed[i := seen];
        } else {
          Skip(hub, queues, consumed, script, op);
        }
      case Unsubscribe(i) =>
        if i < |queues| {
          StepUnsubscribe(hub, queues, consumed, script, i);
        } else {
          Skip(hub, queues, consumed, script, op);
        }
    }
  }

  /**
   Runs a script on a new hub. Whatever happens in whatever order, what a client consumed followed by what
   waits for it is, without a gap, what was published from its subscription to the end of its registration;
   the waiting part is what the script left unread; and the registration lasts until the client unsubscribes
   or an event finds 1000 unread ones before it.
   */
  method Drive<E(==)>(script: seq<Op<E>>)
    returns (consumed: seq<seq<E>>, waiting: seq<seq<E>>, registered: seq<bool>)
    ensures |consumed| == |waiting| == |registered| == |Joined(script)|
    ensures forall i :: 0 <= i < |consumed| ==>
              && consumed[i] + waiting[i] == Published(script)[Joined(script)[i]..Left(script, i)]
              && |waiting[i]| == Unread(script, i) <= 1000
              && registered[i] == Registered(script, i)
  {
    var hub := new Hub<E>();
    var queues: seq<Queue<E>> := [];
    consumed := [];
    for n := 0 to |script|
      invariant fresh(hub) && fresh(hub.created) && AllFollow(hub, queues, consumed, script[..n])
    {
      assert script[..n + 1] == script[..n] + [script[n]];
      queues, consumed := Step(hub, queues, consumed, script[..n], script[n]);
    }
    assert script[..|script|] == script;
    waiting := seq(|queues|, i requires 0 <= i < |queues| reads queues => queues[i].items);
    registered := seq(|queues|, i requires 0 <= i < |queues| reads hub => queues[i] in hub.subscribers);
    forall i | 0 <= i < |queues| ensures queues[i].GapFree(Published(script)) {
      assert queues[i] in hub.created;
    }
  }
}
