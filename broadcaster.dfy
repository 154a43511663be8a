/**
 * EventBroadcaster (core/pathway_stream.py): a list of bounded client queues.
 * Before every broadcast the queues that are full are dropped from the list
 * for good; every remaining queue then receives the event.
 */
module Broadcaster {
  import opened Wrappers
  import opened Dicts

  /** The payload dictionaries the pipeline broadcasts. */
  datatype EventData =
    | PollStart(packageCount: nat)
    | PackageUpdate(packageName: string, previousVersion: string, latestVersion: string,
                    displayMessage: string, isFirstFetch: bool)
    | BreakingChange(packageName: string, currentVersion: string, latestVersion: string,
                     displayMessage: string)

  /** `{'type': ..., 'timestamp': ..., 'data': ...}`; the timestamp is the
      caller's clock reading. */
  datatype Event = Event(eventType: string, timestamp: string, data: EventData)

  /** `queue.Queue(maxsize=100)`. */
  const Capacity: nat := 100

  /** One client's `queue.Queue`. Queues are compared by identity. */
  class ClientQueue {
    var items: seq<Event>

    constructor ()
      ensures items == []
    {
      items := [];
    }

    /** `Queue.full()`. */
    predicate Full()
      reads this
    {
      |items| >= Capacity
    }

    /** `Queue.get_nowait()`: the oldest event, or None when empty. */
    method Take() returns (e: Option<Event>)
      modifies this
      ensures old(items) == [] ==> e == None && items == []
      ensures old(items) != [] ==> e == Some(old(items)[0]) && items == old(items)[1..]
    {
      if items == [] {
        e := None;
      } else {
        e := Some(items[0]);
        items := items[1..];
      }
    }
  }

  /** `[q for q in qs if not q.full()]`. */
  function NotFull(qs: seq<ClientQueue>): (r: seq<ClientQueue>)
    reads qs
    ensures forall q :: q in r ==> q in qs && !q.Full()
    ensures forall q :: q in qs && !q.Full() ==> q in r
    ensures NoDup(qs) ==> NoDup(r)
    ensures |r| <= |qs|
  {
    if qs == [] then []
    else (if qs[0].Full() then [] else [qs[0]]) + NotFull(qs[1..])
  }

  /** `list.remove(x)` guarded by `x in list`: drop the first occurrence. */
  function RemoveFirst<T(==)>(s: seq<T>, x: T): (r: seq<T>)
    ensures x !in s ==> r == s
    ensures x in s ==> |r| == |s| - 1
    ensures forall y :: y in r ==> y in s
    ensures NoDup(s) ==> NoDup(r) && x !in r && forall y :: y in s && y != x ==> y in r
  {
    if s == [] then []
    else if s[0] == x then s[1..]
    else
      var rest := RemoveFirst(s[1..], x);
      assert NoDup(s) ==> s[0] !in s[1..] && NoDup(s[1..]);
      [s[0]] + rest
  }

  class EventBroadcaster {
    var clients: seq<ClientQueue>
    /** Every queue ever handed out. */
    ghost var Repr: set<ClientQueue>
    /** Every event broadcast so far, in order. */
    ghost var history: seq<Event>

    /** Queues are distinct and none of the listed ones is over capacity. */
    ghost predicate Valid()
      reads this, Repr
    {
      && NoDup(clients)
      && forall q :: q in clients ==> q in Repr && |q.items| <= Capacity
    }

    constructor ()
      ensures Valid() && clients == [] && Repr == {} && history == []
    {
      clients := [];
      Repr := {};
      history := [];
    }

    /** `add_client`: a fresh empty queue is appended and returned. */
    method AddClient() returns (q: ClientQueue)
      requires Valid()
      modifies this
      ensures Valid() && fresh(q) && q.items == []
      ensures clients == old(clients) + [q] && Repr == old(Repr) + {q}
      ensures history == old(history)
    {
      q := new ClientQueue();
      clients := clients + [q];
      Repr := Repr + {q};
    }

    /** `remove_client`: the queue leaves the list; an unknown queue changes nothing. */
    method RemoveClient(q: ClientQueue)
      requires Valid()
      modifies this
      ensures Valid() && Repr == old(Repr) && history == old(history)
      ensures clients == RemoveFirst(old(clients), q)
      ensures q !in clients
      ensures q !in old(clients) ==> clients == old(clients)
    {
      if q in clients {
        clients := RemoveFirst(clients, q);
      }
    }

    /** `broadcast`: drop every full queue, then deliver the event to each
        remaining queue exactly once. */
    method Broadcast(eventType: string, data: EventData, now: string)
      requires Valid()
      modifies this, set q | q in clients
      ensures Valid() && Repr == old(Repr)
      ensures history == old(history) + [Event(eventType, now, data)]
      ensures clients == old(NotFull(clients))
      ensures forall q :: q in clients ==> q.items == old(q.items) + [Event(eventType, now, data)]
      ensures forall q :: q in old(clients) && q !in clients ==> q.items == old(q.items)
    {
      var event := Event(eventType, now, data);
      history := history + [event];
      var kept := NotFull(clients);
      assert forall q :: q in kept ==> q in old(clients) && |q.items| < Capacity;
      clients := kept;
      Deliver(kept, event);
    }
  }

  /** The `for client_queue in self.clients: put_nowait(...)` loop. `put_nowait`
      cannot raise `Full` there, since full queues were dropped just before. */
  method Deliver(qs: seq<ClientQueue>, event: Event)
    requires NoDup(qs)
    modifies set q | q in qs
    ensures forall j :: 0 <= j < |qs| ==> qs[j].items == old(qs[j].items) + [event]
  {
    var i := 0;
    while i < |qs|
      invariant 0 <= i <= |qs|
      invariant forall j :: 0 <= j < i ==> qs[j].items == old(qs[j].items) + [event]
      invariant forall j :: i <= j < |qs| ==> qs[j].items == old(qs[j].items)
    {
      qs[i].items := qs[i].items + [event];
      i := i + 1;
    }
  }

  /** Lossy delivery: with no consumption a client receives the first
      `Capacity` events and is then unsubscribed, while a client that drains
      after every event receives all of them. */
  method LossyDelivery(n: nat) returns (slowReceived: nat, slowSubscribed: bool, fastReceived: nat)
    ensures slowReceived == (if n <= Capacity then n else Capacity)
    ensures slowSubscribed <==> n <= Capacity
    ensures fastReceived == n
  {
    var b := new EventBroadcaster();
    var slow := b.AddClient();
    var fast := b.AddClient();
    fastReceived := 0;
    var sent := 0;
    while sent < n
      invariant sent <= n && fresh(slow) && fresh(fast) && fresh(b)
      invariant b.Valid() && b.Repr == {slow, fast} && slow != fast
      invariant b.clients == if sent <= Capacity then [slow, fast] else [fast]
      invariant |slow.items| == if sent <= Capacity then sent else Capacity
      invariant fast.items == [] && fastReceived == sent
    {
      var got := BroadcastAndDrain(b, slow, fast, sent);
      if got {
        fastReceived := fastReceived + 1;
      }
      sent := sent + 1;
    }
    slowReceived := |slow.items|;
    slowSubscribed := slow in b.clients;
  }

  /** One round of `LossyDelivery`: broadcast an event, then the fast
      client takes it. */
  method BroadcastAndDrain(b: EventBroadcaster, slow: ClientQueue, fast: ClientQueue, sent: nat) returns (got: bool)
    requires b.Valid() && b.Repr == {slow, fast} && slow != fast
    requires b.clients == if sent <= Capacity then [slow, fast] else [fast]
    requires |slow.items| == (if sent <= Capacity then sent else Capacity) && fast.items == []
    modifies b, slow, fast
    ensures b.Valid() && b.Repr == {slow, fast}
    ensures b.clients == if sent + 1 <= Capacity then [slow, fast] else [fast]
    ensures |slow.items| == (if sent + 1 <= Capacity then sent + 1 else Capacity) && fast.items == []
    ensures got
  {
    if sent < Capacity {
      assert NotFull([slow, fast]) == [slow, fast];
    } else if sent == Capacity {
      assert NotFull([slow, fast]) == [fast];
    } else {
      assert NotFull([fast]) == [fast];
    }
    b.Broadcast("poll_start", PollStart(0), "");
    var e := fast.Take();
    got := e.Some?;
  }
}
