/** The notification broadcaster: per user, per connection, one bounded queue. */
module Broadcasting {
  import opened Wrappers

  const QUEUE_MAXSIZE := 100

  type Connections<E> = map<nat, seq<E>>
  type Queues<U, E> = map<U, Connections<E>>

  /** put_nowait; a full queue drops the event. */
  function Put<E>(queue: seq<E>, e: E): seq<E> {
    if |queue| < QUEUE_MAXSIZE then queue + [e] else queue
  }

  function PutAll<E>(conns: Connections<E>, e: E): Connections<E> {
    map c | c in conns :: Put(conns[c], e)
  }

  /** The connection's oldest event has been taken. */
  function Advanced<E>(conns: Connections<E>, id: nat): Connections<E>
    requires id in conns && conns[id] != []
  {
    var rest: seq<E> := conns[id][1..];
    conns[id := rest]
  }

  /** The event goes to every connection of every target, target by target. */
  function Delivered<U, E>(queues: Queues<U, E>, e: E, targets: seq<U>): Queues<U, E> {
    if targets == [] then queues
    else
      var before, user := Delivered(queues, e, targets[..|targets| - 1]), targets[|targets| - 1];
      if user in before then before[user := PutAll(before[user], e)] else before
  }

  class Broadcaster<U(==), E> {
    var queues: Queues<U, E>
    var nextConnId: nat

    /** No empty bucket, and every id handed out belongs to one user only. */
    ghost predicate Valid()
      reads this
    {
      && (forall u :: u in queues ==> queues[u] != map[])
      && (forall u, c :: u in queues && c in queues[u] ==> c <= nextConnId)
      && (forall u, v, c :: u in queues && v in queues && c in queues[u] && c in queues[v] ==> u == v)
    }

    constructor ()
      ensures Valid() && queues == map[] && nextConnId == 0
    {
      queues, nextConnId := map[], 0;
    }

    method Broadcast(e: E, targets: seq<U>)
      requires Valid()
      modifies this`queues
      ensures Valid() && queues == Delivered(old(queues), e, targets)
    {
      if targets == [] {
        return;
      }
      ghost var start := queues;
      for n := 0 to |targets|
        invariant Valid() && nextConnId == old(nextConnId) && queues == Delivered(start, e, targets[..n])
      {
        assert targets[..n + 1][..n] == targets[..n];
        var user := targets[n];
        if user in queues && queues[user] != map[] {
          var filled := PutEach(queues[user], e);
          queues := queues[user := filled];
        }
      }
      assert targets[..|targets|] == targets;
    }

    /** The inner loop over one user's connections, in insertion order: ids are handed out increasing. */
    method PutEach(conns: Connections<E>, e: E) returns (filled: Connections<E>)
      requires forall c :: c in conns ==> c <= nextConnId
      ensures filled == PutAll(conns, e) && filled.Keys == conns.Keys
    {
      filled := map[];
      ghost var goal := PutAll(conns, e);
      for c: nat := 0 to nextConnId + 1
        invariant forall i :: i in filled <==> i in goal && i < c
        invariant forall i :: i in filled ==> filled[i] == goal[i]
      {
        if c in conns {
          filled := filled[c := Put(conns[c], e)];
        }
      }
      assert goal.Keys == conns.Keys;
      assert filled == goal;
    }

    method Subscribe(user: U) returns (id: nat)
      requires Valid()
      modifies this
      ensures Valid() && id == old(nextConnId) + 1 == nextConnId
      ensures queues == Opened(old(queues), user, id)
      ensures forall u :: u in old(queues) ==> id !in old(queues)[u]
    {
      nextConnId := nextConnId + 1;
      id := nextConnId;
      queues := queues[user := (if user in queues then queues[user] else map[])[id := []]];
      assert id in queues[user];
    }

    /** One turn of the generator: the next event, or None for a keepalive after the timeout. */
    method Next(user: U, id: nat) returns (e: Option<E>)
      requires Valid() && user in queues && id in queues[user]
      modifies this`queues
      ensures Valid() && queues == Taken(old(queues), user, id)
      ensures e == if old(queues)[user][id] == [] then None else Some(old(queues)[user][id][0])
    {
      var queue := queues[user][id];
      if queue == [] {
        return None;
      }
      queues := queues[user := Advanced(queues[user], id)];
      return Some(queue[0]);
    }

    /** The generator's finally block. */
    method Unsubscribe(user: U, id: nat)
      requires Valid()
      modifies this`queues
      ensures Valid() && queues == Closed(old(queues), user, id)
    {
      var conns := (if user in queues then queues[user] else map[]) - {id};
      if conns == map[] {
        queues := queues - {user};
      } else {
        queues := queues[user := conns];
      }
    }
  }

  function Opened<U, E>(queues: Queues<U, E>, user: U, id: nat): Queues<U, E> {
    queues[user := (if user in queues then queues[user] else map[])[id := []]]
  }

  function Taken<U, E>(queues: Queues<U, E>, user: U, id: nat): Queues<U, E> {
    if user in queues && id in queues[user] && queues[user][id] != []
    then queues[user := Advanced(queues[user], id)]
    else queues
  }

  function Closed<U, E>(queues: Queues<U, E>, user: U, id: nat): Queues<U, E> {
    var conns := (if user in queues then queues[user] else map[]) - {id};
    if conns == map[] then queues - {user} else queues[user := conns]
  }
}
