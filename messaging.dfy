/**
 * The in-memory inter-agent message queue: one queue per recipient, served
 * by priority (CRITICAL, HIGH, NORMAL, LOW) and first-in first-out within a
 * priority, using a global enqueue sequence number as the tie-breaker.
 *
 * Each recipient's heap is modelled by its entries in the order the heap
 * serves them, ascending by (priority rank, sequence number); that order is
 * all `dequeue`, `peek` and `get_all` can observe.
 */
module Messaging {
  import opened Common
  import opened Json

  /** `MessagePriority` */
  datatype MessagePriority = Low | Normal | High | Critical

  /** `_PRIORITY_ORDER`: a smaller rank is served first. */
  function Rank(p: MessagePriority): (r: nat)
    ensures r <= 3
    ensures p == Critical <==> r == 0
    ensures p == Low <==> r == 3
  {
    match p
    case Critical => 0
    case High => 1
    case Normal => 2
    case Low => 3
  }

  /** Rank follows the priority ladder CRITICAL < HIGH < NORMAL < LOW and tells priorities apart. */
  lemma RankOrder(p: MessagePriority, q: MessagePriority)
    ensures Rank(p) == Rank(q) <==> p == q
    ensures Rank(Critical) < Rank(High) < Rank(Normal) < Rank(Low)
  {
  }

  /** The `AgentMessage` of the queue module. */
  datatype Message = Message(
    messageId: string,
    senderId: string,
    recipientId: string,
    messageType: string,
    payload: Object,
    priority: MessagePriority,
    createdAt: int,
    correlationId: Option<string>)

  /** A heap entry `(priority_num, sequence, message)`. */
  datatype Entry = Entry(rank: nat, sequence: nat, message: Message)

  /** The tuple order of heap entries on their first two fields. */
  predicate Before(a: Entry, b: Entry) {
    a.rank < b.rank || (a.rank == b.rank && a.sequence < b.sequence)
  }

  /** Entries in the order the heap serves them. */
  predicate Ordered(q: seq<Entry>) {
    forall i, j :: 0 <= i < j < |q| ==> Before(q[i], q[j])
  }

  /** `heappush`: the entry goes in front of the first entry it comes before. */
  function Push(q: seq<Entry>, e: Entry): (r: seq<Entry>)
    ensures |r| == |q| + 1
    ensures forall x :: x in r <==> x == e || x in q
    decreases |q|
  {
    if q == [] then [e]
    else if Before(e, q[0]) then [e] + q
    else [q[0]] + Push(q[1..], e)
  }

  /** Pushing adds exactly the one entry. */
  lemma {:induction false} PushPermutes(q: seq<Entry>, e: Entry)
    ensures multiset(Push(q, e)) == multiset(q) + multiset{e}
    decreases |q|
  {
    if q != [] && !Before(e, q[0]) {
      PushPermutes(q[1..], e);
      assert q == [q[0]] + q[1..];
    }
  }

  /** Pushing an entry with a sequence number not yet used keeps the queue in serving order. */
  lemma {:induction false} PushOrdered(q: seq<Entry>, e: Entry)
    requires Ordered(q) && forall i :: 0 <= i < |q| ==> q[i].sequence < e.sequence
    ensures Ordered(Push(q, e))
    decreases |q|
  {
    if q != [] && !Before(e, q[0]) {
      PushOrdered(q[1..], e);
      var rest := Push(q[1..], e);
      forall k | 0 <= k < |rest| ensures Before(q[0], rest[k]) {
        assert rest[k] in rest;
      }
    }
  }

  /** Where `Push` puts the entry. */
  function Slot(q: seq<Entry>, e: Entry): (k: nat)
    ensures k <= |q|
    decreases |q|
  {
    if q == [] || Before(e, q[0]) then 0 else 1 + Slot(q[1..], e)
  }

  lemma {:induction false} PushAtSlot(q: seq<Entry>, e: Entry)
    ensures Push(q, e) == q[..Slot(q, e)] + [e] + q[Slot(q, e)..]
    decreases |q|
  {
    if q != [] && !Before(e, q[0]) {
      PushAtSlot(q[1..], e);
      var k := Slot(q[1..], e);
      assert q[..k + 1] == [q[0]] + q[1..][..k];
      assert q[k + 1..] == q[1..][k..];
    }
  }

  lemma {:induction false} SlotSplits(q: seq<Entry>, e: Entry)
    requires Ordered(q) && forall i :: 0 <= i < |q| ==> q[i].sequence < e.sequence
    ensures forall i :: 0 <= i < Slot(q, e) ==> q[i].rank <= e.rank
    ensures forall i :: Slot(q, e) <= i < |q| ==> e.rank < q[i].rank
    decreases |q|
  {
    if q == [] {
    } else if Before(e, q[0]) {
      forall i | 0 <= i < |q| ensures e.rank < q[i].rank {
        assert i == 0 || Before(q[0], q[i]);
      }
    } else {
      SlotSplits(q[1..], e);
      forall i | 1 <= i < |q| ensures q[i] == q[1..][i - 1] { }
    }
  }

  /**
   * The new entry is served after every queued message of its own or a more
   * urgent priority, and before every message of a less urgent one.
   */
  lemma PushPosition(q: seq<Entry>, e: Entry)
    requires Ordered(q) && forall i :: 0 <= i < |q| ==> q[i].sequence < e.sequence
    ensures exists k :: (0 <= k <= |q| && Push(q, e) == q[..k] + [e] + q[k..]
      && (forall i :: 0 <= i < k ==> q[i].rank <= e.rank)
      && (forall i :: k <= i < |q| ==> e.rank < q[i].rank))
  {
    PushAtSlot(q, e);
    SlotSplits(q, e);
    var k := Slot(q, e);
    assert Push(q, e) == q[..k] + [e] + q[k..];
  }

  /** `[entry[2] for entry in sorted(queue, key=(priority_num, sequence))]` for an ordered queue. */
  function Messages(q: seq<Entry>): (r: seq<Message>)
    ensures |r| == |q| && forall i :: 0 <= i < |q| ==> r[i] == q[i].message
  {
    seq(|q|, i requires 0 <= i < |q| => q[i].message)
  }

  class MessageQueue {
    var queues: map<string, seq<Entry>>
    var sequence: nat

    /**
     * Every stored queue is non-empty (emptied queues are deleted), in serving
     * order, holds only messages for its recipient, ranks each entry by its
     * message's priority, and uses sequence numbers below the counter.
     */
    ghost predicate Valid()
      reads this
    {
      forall r :: r in queues ==>
        queues[r] != [] && Ordered(queues[r])
        && forall i :: 0 <= i < |queues[r]| ==>
             queues[r][i].sequence < sequence && queues[r][i].message.recipientId == r
             && queues[r][i].rank == Rank(queues[r][i].message.priority)
    }

    /** The queue of `recipient`, empty when it has none. */
    function QueueOf(recipient: string): seq<Entry>
      reads this
    {
      if recipient in queues then queues[recipient] else []
    }

    constructor()
      ensures Valid() && queues == map[] && sequence == 0
    {
      queues := map[];
      sequence := 0;
    }

    /** `enqueue(message)`: push onto the recipient's queue with the next sequence number. */
    method Enqueue(message: Message)
      requires Valid()
      modifies this
      ensures Valid()
      ensures sequence == old(sequence) + 1
      ensures queues == old(queues)[message.recipientId :=
        Push(old(QueueOf(message.recipientId)), Entry(Rank(message.priority), old(sequence), message))]
      ensures TotalLength(queues) == TotalLength(old(queues)) + 1
    {
      var recipient := message.recipientId;
      var q := if recipient in queues then queues[recipient] else [];
      var e := Entry(Rank(message.priority), sequence, message);
      PushOrdered(q, e);
      forall x | x in Push(q, e)
        ensures x.sequence < sequence + 1 && x.message.recipientId == recipient && x.rank == Rank(x.message.priority)
      {
        if x != e {
          var i :| 0 <= i < |q| && q[i] == x;
        }
      }
      TotalLengthUpdate(queues, recipient, Push(q, e));
      queues := queues[recipient := Push(q, e)];
      sequence := sequence + 1;
    }

    /**
     * `dequeue(recipient_id)`: None for an empty or unknown recipient; else
     * the head of its queue, which is removed, and an emptied queue deleted.
     */
    method Dequeue(recipient: string) returns (r: Option<Message>)
      requires Valid()
      modifies this
      ensures Valid() && sequence == old(sequence)
      ensures recipient !in old(queues) ==> r.None? && queues == old(queues)
      ensures recipient in old(queues) ==>
        var q := old(queues[recipient]);
        r == Some(q[0].message)
        && queues == (if |q| == 1 then old(queues) - {recipient} else old(queues)[recipient := q[1..]])
      ensures r.Some? <==> old(QueueOf(recipient)) != []
      ensures TotalLength(queues) == TotalLength(old(queues)) - (if r.Some? then 1 else 0)
    {
      if recipient !in queues {
        return None;
      }
      var q := queues[recipient];
      r := Some(q[0].message);
      if |q| == 1 {
        TotalLengthDelete(queues, recipient);
        queues := queues - {recipient};
      } else {
        TotalLengthUpdate(queues, recipient, q[1..]);
        queues := queues[recipient := q[1..]];
      }
    }

    /** `peek(recipient_id)`: the queued messages in serving order, nothing removed. */
    function Peek(recipient: string): (r: seq<Message>)
      reads this
      ensures |r| == |QueueOf(recipient)|
      ensures forall i :: 0 <= i < |r| ==> r[i] == QueueOf(recipient)[i].message
    {
      Messages(QueueOf(recipient))
    }

    /** `get_all(recipient_id)`: the queued messages in serving order; the queue is removed. */
    method GetAll(recipient: string) returns (r: seq<Message>)
      requires Valid()
      modifies this
      ensures Valid() && sequence == old(sequence)
      ensures r == old(Peek(recipient))
      ensures queues == old(queues) - {recipient}
      ensures TotalLength(queues) == TotalLength(old(queues)) - |r|
    {
      r := Messages(QueueOf(recipient));
      TotalLengthDelete(queues, recipient);
      queues := queues - {recipient};
    }

    /**
     * `clear(recipient_id)`: with an id, drops that queue and returns its
     * length; without, drops every queue and returns the total.
     */
    method Clear(recipient: Option<string>) returns (count: nat)
      requires Valid()
      modifies this
      ensures Valid() && sequence == old(sequence)
      ensures recipient.Some? ==> count == |old(QueueOf(recipient.value))| && queues == old(queues) - {recipient.value}
      ensures recipient.None? ==> count == TotalLength(old(queues)) && queues == map[]
    {
      if recipient.Some? {
        count := |QueueOf(recipient.value)|;
        queues := queues - {recipient.value};
      } else {
        count := TotalMessages();
        queues := map[];
      }
    }

    /** `queue_size(recipient_id)` */
    function QueueSize(recipient: string): (r: nat)
      reads this
      ensures r == |Peek(recipient)|
    {
      |QueueOf(recipient)|
    }

    /** `total_messages`: the sum of the queue sizes. */
    method TotalMessages() returns (total: nat)
      ensures total == TotalLength(queues)
    {
      total := 0;
      var left := queues;
      while left != map[]
        invariant total + TotalLength(left) == TotalLength(queues)
        decreases |left.Keys|
      {
        var k :| k in left;
        TotalLengthRemove(left, k);
        total := total + |left[k]|;
        left := left - {k};
      }
    }
  }

  /**
   * Messages come out by priority, most urgent first, and first-in first-out
   * within a priority; what a dequeue returns is the first message peek lists.
   */
  lemma PeekOrder(mq: MessageQueue, recipient: string)
    requires mq.Valid()
    ensures var q := mq.QueueOf(recipient);
      forall i, j :: 0 <= i < j < |q| ==>
        Rank(q[i].message.priority) <= Rank(q[j].message.priority)
    ensures var q := mq.QueueOf(recipient);
      forall i, j :: 0 <= i < j < |q| && q[i].message.priority == q[j].message.priority ==>
        q[i].sequence < q[j].sequence
    ensures forall i :: 0 <= i < |mq.Peek(recipient)| ==>
      mq.Peek(recipient)[i].recipientId == recipient
  {
    var q := mq.QueueOf(recipient);
    forall i, j | 0 <= i < j < |q| && q[i].message.priority == q[j].message.priority
      ensures q[i].sequence < q[j].sequence
    {
      assert Before(q[i], q[j]);
    }
  }
}
