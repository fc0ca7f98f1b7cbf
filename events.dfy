/**
 * The synchronous publish/subscribe event bus: handlers subscribe to one
 * event type, `publish` records the event in a bounded history and calls the
 * handlers of its type in subscription order, counting each call whether or
 * not the handler raised.
 *
 * Handlers are opaque: a subscription carries a handler reference, and
 * whether calling it raises is an oracle parameter of `Publish`. A handler
 * never subscribes, unsubscribes or publishes on the bus that is calling it.
 */
module Events {
  import opened Common
  import opened Json

  /** `EventType` */
  datatype EventType =
    | WorkflowStarted
    | WorkflowCompleted
    | WorkflowFailed
    | WorkflowStepCompleted
    | AgentRegistered
    | AgentStatusChanged
    | TaskRouted
    | TaskCompleted
    | TaskFailed

  /** `Event`; the timestamp is an opaque instant. */
  datatype Event = Event(eventId: string, eventType: EventType, source: string, payload: Object, timestamp: int)

  /** A reference to a subscribed callable. */
  type Handler = nat

  /** `(subscription_id, handler)` */
  datatype Subscription = Subscription(id: string, handler: Handler)

  /** One handler invocation made by `publish`, and whether the handler raised. */
  datatype Call = Call(subscriptionId: string, raised: bool)

  /** `self._max_history` */
  const MAX_HISTORY: nat := 1000

  /** Some subscription in `subs` has this id. */
  predicate HasId(subs: seq<Subscription>, id: string) {
    exists i :: 0 <= i < |subs| && subs[i].id == id
  }

  /** The position of the first subscription with this id, or -1. */
  function IndexOfId(subs: seq<Subscription>, id: string): (r: int)
    ensures -1 <= r < |subs|
    ensures r == -1 <==> !HasId(subs, id)
    ensures r >= 0 ==> subs[r].id == id && forall i :: 0 <= i < r ==> subs[i].id != id
    decreases |subs|
  {
    if subs == [] then -1
    else if subs[0].id == id then 0
    else
      var k := IndexOfId(subs[1..], id);
      if k == -1 then
        assert forall i :: 1 <= i < |subs| ==> subs[i] == subs[1..][i - 1];
        -1
      else k + 1
  }

  /** `handlers.pop(i)` */
  function RemoveAt<T>(s: seq<T>, i: nat): (r: seq<T>)
    requires i < |s|
    ensures |r| == |s| - 1
    ensures forall j :: 0 <= j < i ==> r[j] == s[j]
    ensures forall j :: i <= j < |r| ==> r[j] == s[j + 1]
  {
    s[..i] + s[i + 1..]
  }

  /** Only events of the asked type come back; with no type, the whole history. */
  function Selected(history: seq<Event>, t: Option<EventType>): (r: seq<Event>)
    ensures t.None? ==> r == history
    ensures t.Some? ==> forall e :: e in r <==> e in history && e.eventType == t.value
  {
    if t.Some? then Where(history, (e: Event) => e.eventType == t.value) else history
  }

  /** No subscription id occurs twice, within one list or across lists. */
  ghost predicate UniqueIds(subscribers: map<EventType, seq<Subscription>>) {
    forall t, u, i, j ::
      (t in subscribers && u in subscribers && 0 <= i < |subscribers[t]| && 0 <= j < |subscribers[u]|
       && subscribers[t][i].id == subscribers[u][j].id) ==> t == u && i == j
  }

  /** `for i, (sub_id, _) in enumerate(handlers): if sub_id == subscription_id: ...` */
  method FindSubscription(handlers: seq<Subscription>, id: string) returns (i: int)
    ensures i == IndexOfId(handlers, id)
  {
    i := 0;
    while i < |handlers|
      invariant 0 <= i <= |handlers|
      invariant forall j :: 0 <= j < i ==> handlers[j].id != id
    {
      if handlers[i].id == id {
        return;
      }
      i := i + 1;
    }
    i := -1;
  }

  /** Appending a subscription under an unused id keeps the ids unique. */
  lemma AppendUnique(subscribers: map<EventType, seq<Subscription>>, t: EventType, sub: Subscription)
    requires UniqueIds(subscribers)
    requires forall u :: u in subscribers ==> !HasId(subscribers[u], sub.id)
    ensures var handlers := if t in subscribers then subscribers[t] else [];
      UniqueIds(subscribers[t := handlers + [sub]])
  {
    var handlers := if t in subscribers then subscribers[t] else [];
    var after: map<EventType, seq<Subscription>> := subscribers[t := handlers + [sub]];
    forall a: EventType, b: EventType, k: int, j: int |
      a in after && b in after && 0 <= k < |after[a]| && 0 <= j < |after[b]| && after[a][k].id == after[b][j].id
      ensures a == b && k == j
    {
      if a == t && k == |handlers| {
        if !(b == t && j == |handlers|) {
          assert false;
        }
      } else if b == t && j == |handlers| {
        assert false;
      } else {
        assert after[a][k] == subscribers[a][k] && after[b][j] == subscribers[b][j];
      }
    }
  }

  /** Position `k` of a list after `RemoveAt(_, i)` held position `Shifted(k, i)` before. */
  function Shifted(k: nat, i: nat): nat {
    if k < i then k else k + 1
  }

  lemma RemoveAtShifted<T>(s: seq<T>, i: nat, k: nat)
    requires i < |s| && k < |s| - 1
    ensures Shifted(k, i) < |s| && RemoveAt(s, i)[k] == s[Shifted(k, i)]
  {
  }

  /** Removing one subscription keeps the ids unique. */
  lemma RemoveUnique(subscribers: map<EventType, seq<Subscription>>, t: EventType, i: nat)
    requires UniqueIds(subscribers) && t in subscribers && i < |subscribers[t]|
    ensures UniqueIds(subscribers[t := RemoveAt(subscribers[t], i)])
  {
    var after: map<EventType, seq<Subscription>> := subscribers[t := RemoveAt(subscribers[t], i)];
    forall a: EventType, b: EventType, k: int, j: int |
      a in after && b in after && 0 <= k < |after[a]| && 0 <= j < |after[b]| && after[a][k].id == after[b][j].id
      ensures a == b && k == j
    {
      var k' := if a == t then Shifted(k, i) else k;
      var j' := if b == t then Shifted(j, i) else j;
      if a == t { RemoveAtShifted(subscribers[t], i, k); }
      if b == t { RemoveAtShifted(subscribers[t], i, j); }
      assert subscribers[a][k'].id == subscribers[b][j'].id;
    }
  }

  /** Once the only subscription with an id is removed, no list holds that id. */
  lemma RemoveLeavesUnused(subscribers: map<EventType, seq<Subscription>>, t: EventType, i: nat, id: string)
    requires UniqueIds(subscribers) && t in subscribers && i < |subscribers[t]| && subscribers[t][i].id == id
    ensures var after := subscribers[t := RemoveAt(subscribers[t], i)];
      forall u :: u in after ==> !HasId(after[u], id)
  {
    var after: map<EventType, seq<Subscription>> := subscribers[t := RemoveAt(subscribers[t], i)];
    forall u | u in after ensures !HasId(after[u], id) {
      if u == t {
        forall k | 0 <= k < |after[t]| ensures after[t][k].id != id {
          RemoveAtShifted(subscribers[t], i, k);
        }
      } else {
        assert after[u] == subscribers[u];
      }
    }
  }

  class EventBus {
    var subscribers: map<EventType, seq<Subscription>>
    var history: seq<Event>

    /** The history is bounded and no subscription id is used twice. */
    ghost predicate Valid()
      reads this
    {
      |history| <= MAX_HISTORY && UniqueIds(subscribers)
    }

    /** The subscription id is in use. */
    ghost predicate Subscribed(id: string)
      reads this
    {
      exists t :: t in subscribers && HasId(subscribers[t], id)
    }

    /** `self._subscribers.get(t, [])` */
    function HandlersOf(t: EventType): seq<Subscription>
      reads this
    {
      if t in subscribers then subscribers[t] else []
    }

    constructor()
      ensures Valid() && subscribers == map[] && history == []
    {
      subscribers := map[];
      history := [];
    }

    /**
     * `subscribe(event_type, handler)`: appends a subscription under a fresh
     * id (a uuid in the source, a parameter here) and returns that id.
     */
    method Subscribe(t: EventType, handler: Handler, freshId: string) returns (id: string)
      requires Valid() && !Subscribed(freshId)
      modifies this
      ensures Valid() && id == freshId && Subscribed(id)
      ensures subscribers == old(subscribers)[t := old(HandlersOf(t)) + [Subscription(freshId, handler)]]
      ensures history == old(history)
      ensures TotalLength(subscribers) == TotalLength(old(subscribers)) + 1
    {
      var subs := HandlersOf(t);
      AppendUnique(subscribers, t, Subscription(freshId, handler));
      TotalLengthUpdate(subscribers, t, subs + [Subscription(freshId, handler)]);
      subscribers := subscribers[t := subs + [Subscription(freshId, handler)]];
      id := freshId;
      assert subscribers[t][|subs|].id == id;
    }

    /**
     * `unsubscribe(subscription_id)`: removes the subscription with that id
     * and answers True, or answers False and changes nothing. A list left
     * empty stays in the map.
     */
    method Unsubscribe(id: string) returns (removed: bool)
      requires Valid()
      modifies this
      ensures Valid() && history == old(history)
      ensures removed <==> old(Subscribed(id))
      ensures !removed ==> subscribers == old(subscribers)
      ensures removed ==> exists t :: (t in old(subscribers) && HasId(old(subscribers)[t], id) &&
        subscribers == old(subscribers)[t := RemoveAt(old(subscribers)[t], IndexOfId(old(subscribers)[t], id))])
      ensures !Subscribed(id)
      ensures TotalLength(subscribers) == TotalLength(old(subscribers)) - (if removed then 1 else 0)
    {
      var pending := subscribers.Keys;
      while pending != {}
        invariant subscribers == old(subscribers) && history == old(history)
        invariant pending <= subscribers.Keys
        invariant forall t :: t in subscribers && t !in pending ==> !HasId(subscribers[t], id)
        decreases |pending|
      {
        var t :| t in pending;
        var i := FindSubscription(subscribers[t], id);
        if i >= 0 {
          assert HasId(subscribers[t], id);
          RemoveUnique(subscribers, t, i);
          RemoveLeavesUnused(subscribers, t, i, id);
          var after := RemoveAt(subscribers[t], i);
          TotalLengthUpdate(subscribers, t, after);
          subscribers := subscribers[t := after];
          assert t in old(subscribers) && HasId(old(subscribers)[t], id);
          return true;
        }
        pending := pending - {t};
      }
      removed := false;
    }

    /**
     * `publish(event)`: appends the event to the history (keeping the newest
     * 1000), then calls every handler of its type in subscription order; a
     * handler that raises is still counted and does not stop the ones after it.
     * `raises` says which calls raise.
     */
    method Publish(event: Event, raises: (Handler, Event) -> bool) returns (count: nat, calls: seq<Call>)
      requires Valid()
      modifies this
      ensures Valid() && subscribers == old(subscribers)
      ensures history == KeepNewest(old(history) + [event], MAX_HISTORY)
      ensures count == |HandlersOf(event.eventType)| == |calls|
      ensures forall i :: 0 <= i < |calls| ==>
        calls[i] == Call(HandlersOf(event.eventType)[i].id, raises(HandlersOf(event.eventType)[i].handler, event))
    {
      history := history + [event];
      if |history| > MAX_HISTORY {
        history := history[|history| - MAX_HISTORY..];
      }
      var handlers := HandlersOf(event.eventType);
      count := 0;
      calls := [];
      for i := 0 to |handlers|
        invariant count == i == |calls|
        invariant forall j :: 0 <= j < i ==> calls[j] == Call(handlers[j].id, raises(handlers[j].handler, event))
      {
        if raises(handlers[i].handler, event) {
          calls := calls + [Call(handlers[i].id, true)];
          count := count + 1;
        } else {
          calls := calls + [Call(handlers[i].id, false)];
          count := count + 1;
        }
      }
    }

    /**
     * `get_history(event_type, limit)`: the events of that type (or all),
     * the newest `limit` of them, newest first.
     */
    function GetHistory(t: Option<EventType>, limit: int): (r: seq<Event>)
      reads this
      ensures |r| <= |history|
      ensures forall e :: e in r ==> e in history && (t.Some? ==> e.eventType == t.value)
      ensures |r| == SliceLength(|Selected(history, t)|, limit)
      ensures forall i :: 0 <= i < |r| ==> r[i] == Selected(history, t)[|Selected(history, t)| - 1 - i]
    {
      GetHistorySpec(history, t, limit);
      NewestFirst(Selected(history, t), limit)
    }

    /** `clear_history()`: returns how many events were dropped. */
    method ClearHistory() returns (count: nat)
      requires Valid()
      modifies this
      ensures Valid() && count == |old(history)| && history == [] && subscribers == old(subscribers)
    {
      count := |history|;
      history := [];
    }

    /** `subscriber_count`: the number of subscriptions over all event types. */
    method SubscriberCount() returns (total: nat)
      ensures total == TotalLength(subscribers)
    {
      total := 0;
      var left := subscribers;
      while left != map[]
        invariant total + TotalLength(left) == TotalLength(subscribers)
        decreases |left.Keys|
      {
        var t :| t in left;
        TotalLengthRemove(left, t);
        total := total + |left[t]|;
        left := left - {t};
      }
    }
  }

  /** Publishing keeps the history bounded and its newest entry is the published event. */
  lemma PublishHistory(history: seq<Event>, event: Event)
    requires |history| <= MAX_HISTORY
    ensures var h := KeepNewest(history + [event], MAX_HISTORY);
      |h| <= MAX_HISTORY && h != [] && h[|h| - 1] == event &&
      h[..|h| - 1] == history[|history| + 1 - |h|..]
  {
    KeepNewestAppend(history, event, MAX_HISTORY);
  }

  /**
   * `get_history` answers the matching events the limit's slice keeps
   * (`min(limit, matches)` of them for a positive limit), newest first.
   */
  lemma GetHistorySpec(history: seq<Event>, t: Option<EventType>, limit: int)
    ensures var events := Selected(history, t);
      var r := NewestFirst(events, limit);
      |r| == SliceLength(|events|, limit) &&
      (forall i :: 0 <= i < |r| ==> r[i] == events[|events| - 1 - i]) &&
      (forall e :: e in r ==> e in history && (t.Some? ==> e.eventType == t.value))
  {
    var events := Selected(history, t);
    NewestFirstSpec(events, limit);
    var r := NewestFirst(events, limit);
    forall e | e in r ensures e in events {
      var i :| 0 <= i < |r| && r[i] == e;
    }
  }

  /** The newest event of the asked type is the first one `get_history` returns. */
  lemma NewestMatchFirst(history: seq<Event>, e: Event, limit: int)
    requires limit >= 0
    ensures NewestFirst(Selected(history + [e], Some(e.eventType)), limit) != []
    ensures NewestFirst(Selected(history + [e], Some(e.eventType)), limit)[0] == e
  {
    WhereAppend(history, e, (x: Event) => x.eventType == e.eventType);
    NewestFirstSpec(Selected(history + [e], Some(e.eventType)), limit);
  }
}
