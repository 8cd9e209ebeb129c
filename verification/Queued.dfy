/** Sending to and dispatching from a component's queue. */
module Queued {
  import opened Wrappers
  import opened Wire
  import opened StableQueue
  import opened Lifecycle
  import Q = PriorityQueue

  type Handlers = seq<Byte> -> Answer

  /** What one dispatch answers: only well-formed messages other than the exit message reach the handlers. */
  function Reply(handlers: Handlers, bytes: seq<Byte>): Answer {
    match MsgTypeOf(bytes)
    case None => DispatchError
    case Some(t) => if t == EXIT_MSG_TYPE then DispatchExit else handlers(bytes)
  }

  datatype Limits = Limits(depth: nat, size: nat)

  /** `queue`, which has `base` messages before it, after the first `n` of `ms` were sent: those that fit are accepted. */
  function Posted(c: Limits, base: nat, queue: seq<Message>, ms: seq<Message>, n: nat): (now: seq<Message>)
    requires n <= |ms|
    ensures |now| >= |queue|
  {
    if n == 0 then queue
    else
      var now := Posted(c, base, queue, ms, n - 1);
      if |ms[n - 1].bytes| <= c.size && base + |now| < c.depth then now + [ms[n - 1]] else now
  }

  lemma {:induction false} PostedBehind(c: Limits, base: nat, a: seq<Message>, b: seq<Message>, ms: seq<Message>, n: nat)
    requires n <= |ms|
    ensures Posted(c, base, a + b, ms, n) == a + Posted(c, base + |a|, b, ms, n)
  {
    if n > 0 {
      PostedBehind(c, base, a, b, ms, n - 1);
    }
  }

  /** What other threads and the handlers send during each dispatch. */
  type Arrivals = nat -> seq<Message>

  // ---- The bounded loop ----

  /** What is waiting after `i` turns that began with `queue`. */
  function QueueAt(c: Limits, queue: seq<Message>, arrivals: Arrivals, i: nat): (now: seq<Message>)
    requires i <= |queue|
    ensures |now| >= |queue| - i
    decreases i, 0
  {
    if i == 0 then queue else SentAt(c, queue, arrivals, i - 1, |arrivals(i - 1)|)
  }

  /** What is waiting in turn `i`, after its dispatch and the first `n` sends during it. */
  function SentAt(c: Limits, queue: seq<Message>, arrivals: Arrivals, i: nat, n: nat): (now: seq<Message>)
    requires i < |queue| && n <= |arrivals(i)|
    ensures |now| >= |queue| - i - 1
    decreases i, 1, n
  {
    if n == 0 then var now := QueueAt(c, queue, arrivals, i); Without(now, Best(now))
    else
      var now, m := SentAt(c, queue, arrivals, i, n - 1), arrivals(i)[n - 1];
      if |m.bytes| <= c.size && |now| < c.depth then now + [m] else now
  }

  lemma {:induction false} SentIsPosted(c: Limits, queue: seq<Message>, arrivals: Arrivals, i: nat, n: nat)
    requires i < |queue| && n <= |arrivals(i)|
    ensures var now := QueueAt(c, queue, arrivals, i);
            SentAt(c, queue, arrivals, i, n) == Posted(c, 0, Without(now, Best(now)), arrivals(i), n)
  {
    if n > 0 {
      SentIsPosted(c, queue, arrivals, i, n - 1);
    }
  }

  /** The message dispatched in turn `i`. */
  function TurnAt(c: Limits, queue: seq<Message>, arrivals: Arrivals, i: nat): Message
    requires i < |queue|
  {
    var now := QueueAt(c, queue, arrivals, i);
    now[Best(now)]
  }

  /** The messages dispatched in the first `k` turns. */
  function Turns(c: Limits, queue: seq<Message>, arrivals: Arrivals, k: nat): (out: seq<Message>)
    requires k <= |queue|
    ensures |out| == k
  {
    if k == 0 then [] else Turns(c, queue, arrivals, k - 1) + [TurnAt(c, queue, arrivals, k - 1)]
  }

  predicate AllOk(handlers: Handlers, out: seq<Message>, k: nat)
    requires k <= |out|
  {
    k == 0 || (Reply(handlers, out[k - 1].bytes) == DispatchOk && AllOk(handlers, out, k - 1))
  }

  /** Why the loop ended after dispatching `out`: all `n` turns were OK, or the last answered otherwise. */
  predicate Stops(handlers: Handlers, out: seq<Message>, n: nat, answer: Answer) {
    if answer == DispatchOk then |out| == n && AllOk(handlers, out, n)
    else 0 < |out| <= n && AllOk(handlers, out, |out| - 1) && answer == Reply(handlers, out[|out| - 1].bytes)
  }

  /** `i` turns that began with `start` have dispatched `out`, all OK, and left `queue`. */
  ghost predicate Running(c: Limits, handlers: Handlers, start: seq<Message>, arrivals: Arrivals, i: nat,
                          queue: seq<Message>, out: seq<Message>)
  {
    && i <= |start| && queue == QueueAt(c, start, arrivals, i)
    && out == Turns(c, start, arrivals, i) && AllOk(handlers, out, i)
  }

  /** The loop of at most `n` turns that began with `start` took `turns`, dispatched `out`, answered and left `queue`. */
  ghost predicate Ran(c: Limits, handlers: Handlers, start: seq<Message>, arrivals: Arrivals, n: nat, turns: nat,
                      answer: Answer, queue: seq<Message>, out: seq<Message>)
  {
    && turns <= n <= |start| && queue == QueueAt(c, start, arrivals, turns)
    && out == Turns(c, start, arrivals, turns) && Stops(handlers, out, n, answer)
  }

  lemma {:induction false} AllOkPrefix(handlers: Handlers, a: seq<Message>, b: seq<Message>, k: nat)
    requires k <= |a|
    ensures AllOk(handlers, a + b, k) == AllOk(handlers, a, k)
  {
    if k > 0 {
      AllOkPrefix(handlers, a, b, k - 1);
    }
  }

  // ---- Which messages the bounded loop dispatches ----

  /** What is left of a queue to which nothing is sent, after `i` turns, and its next message. */
  function LeftAt(queue: seq<Message>, i: nat): (left: seq<Message>)
    requires i <= |queue|
    ensures |left| == |queue| - i
  {
    if i == 0 then queue else var left := LeftAt(queue, i - 1); Without(left, Best(left))
  }

  function DueAt(queue: seq<Message>, i: nat): Message
    requires i < |queue|
  {
    var left := LeftAt(queue, i);
    left[Best(left)]
  }

  /** What has been accepted since the `n` waiting messages were counted: `early` before the first turn, then `arrivals`. */
  function NewsAt(c: Limits, n: nat, early: seq<Message>, arrivals: Arrivals, i: nat): seq<Message>
    requires i <= n
  {
    if i == 0 then Posted(c, n, [], early, |early|)
    else Posted(c, n - i, NewsAt(c, n, early, arrivals, i - 1), arrivals(i - 1), |arrivals(i - 1)|)
  }

  ghost predicate NoneAbove(news: seq<Message>, priority: nat) {
    forall j :: 0 <= j < |news| ==> news[j].priority <= priority
  }

  /** Nothing accepted before turn `i` outranks the waiting message whose turn it would be. */
  ghost predicate CalmAt(c: Limits, queue: seq<Message>, early: seq<Message>, arrivals: Arrivals, i: nat)
    requires i < |queue|
  {
    NoneAbove(NewsAt(c, |queue|, early, arrivals, i), DueAt(queue, i).priority)
  }

  /** The queue the first turn finds. */
  function Start(c: Limits, queue: seq<Message>, early: seq<Message>): (now: seq<Message>)
    ensures |now| >= |queue|
  {
    Posted(c, 0, queue, early, |early|)
  }

  lemma BestOfBoth(snap: seq<Message>, news: seq<Message>)
    requires snap != [] && NoneAbove(news, snap[Best(snap)].priority)
    ensures Best(snap + news) == Best(snap)
    ensures Without(snap + news, Best(snap)) == Without(snap, Best(snap)) + news
  {
    var k, both := Best(snap), snap + news;
    forall j | 0 <= j < |both|
      ensures both[j].priority <= both[k].priority
    {
      if j >= |snap| {
        assert both[j] == news[j - |snap|];
      }
    }
    BestIsUnique(both, k);
    WithoutAppend(snap, news, k);
  }

  lemma BestAbove(snap: seq<Message>, news: seq<Message>)
    requires snap != [] && !NoneAbove(news, snap[Best(snap)].priority)
    ensures (snap + news)[Best(snap + news)].priority > snap[Best(snap)].priority
  {
    var j :| 0 <= j < |news| && news[j].priority > snap[Best(snap)].priority;
    assert (snap + news)[|snap| + j] == news[j];
  }

  /** While nothing new outranks the snapshot, its next message goes and the new ones stay behind the others. */
  lemma BestOfSnapshot(c: Limits, snap: seq<Message>, news: seq<Message>, ms: seq<Message>)
    requires snap != [] && NoneAbove(news, snap[Best(snap)].priority)
    ensures Posted(c, 0, Without(snap + news, Best(snap + news)), ms, |ms|)
         == Without(snap, Best(snap)) + Posted(c, |snap| - 1, news, ms, |ms|)
  {
    BestOfBoth(snap, news);
    PostedBehind(c, 0, Without(snap, Best(snap)), news, ms, |ms|);
  }

  lemma CalmStep(c: Limits, start: seq<Message>, arrivals: Arrivals, i: nat, left: seq<Message>, news: seq<Message>)
    requires i < |start| && QueueAt(c, start, arrivals, i) == left + news
    requires left != [] && NoneAbove(news, left[Best(left)].priority)
    ensures QueueAt(c, start, arrivals, i + 1)
         == Without(left, Best(left)) + Posted(c, |left| - 1, news, arrivals(i), |arrivals(i)|)
  {
    SentIsPosted(c, start, arrivals, i, |arrivals(i)|);
    BestOfSnapshot(c, left, news, arrivals(i));
  }

  ghost predicate CalmTo(c: Limits, queue: seq<Message>, early: seq<Message>, arrivals: Arrivals, k: nat)
    requires k <= |queue|
  {
    k == 0 || (CalmTo(c, queue, early, arrivals, k - 1) && CalmAt(c, queue, early, arrivals, k - 1))
  }

  /** As long as all turns were calm, the queue is what is left of the snapshot, and behind it what is new. */
  lemma {:induction false} CalmQueue(c: Limits, queue: seq<Message>, early: seq<Message>, arrivals: Arrivals, i: nat)
    requires i <= |queue| && CalmTo(c, queue, early, arrivals, i)
    ensures QueueAt(c, Start(c, queue, early), arrivals, i) == LeftAt(queue, i) + NewsAt(c, |queue|, early, arrivals, i)
  {
    if i == 0 {
      assert queue + [] == queue;
      PostedBehind(c, 0, queue, [], early, |early|);
    } else {
      var j := i - 1;
      CalmQueue(c, queue, early, arrivals, j);
      CalmStep(c, Start(c, queue, early), arrivals, j, LeftAt(queue, j), NewsAt(c, |queue|, early, arrivals, j));
    }
  }

  /** The message dispatched in turn `i` is the waiting one whose turn it would be without new ones. */
  ghost predicate OnTurn(c: Limits, queue: seq<Message>, early: seq<Message>, arrivals: Arrivals, i: nat)
    requires i < |queue|
  {
    TurnAt(c, Start(c, queue, early), arrivals, i) == DueAt(queue, i)
  }

  ghost predicate OnTurnTo(c: Limits, queue: seq<Message>, early: seq<Message>, arrivals: Arrivals, k: nat)
    requires k <= |queue|
  {
    k == 0 || (OnTurnTo(c, queue, early, arrivals, k - 1) && OnTurn(c, queue, early, arrivals, k - 1))
  }

  lemma CalmTurn(c: Limits, queue: seq<Message>, early: seq<Message>, arrivals: Arrivals, i: nat)
    requires i < |queue| && CalmTo(c, queue, early, arrivals, i)
    ensures OnTurn(c, queue, early, arrivals, i) <==> CalmAt(c, queue, early, arrivals, i)
  {
    var left, news := LeftAt(queue, i), NewsAt(c, |queue|, early, arrivals, i);
    assert TurnAt(c, Start(c, queue, early), arrivals, i) == (left + news)[Best(left + news)] by {
      CalmQueue(c, queue, early, arrivals, i);
    }
    if CalmAt(c, queue, early, arrivals, i) {
      BestOfBoth(left, news);
    } else {
      BestAbove(left, news);
    }
  }

  /**
   The first `k` messages dispatched are the waiting ones, in the order in which the queue empties,
   exactly when none of these turns finds a newly accepted message that outranks the one whose turn it is.
   */
  lemma {:induction false} SnapshotIffCalm(c: Limits, queue: seq<Message>, early: seq<Message>, arrivals: Arrivals, k: nat)
    requires k <= |queue|
    ensures OnTurnTo(c, queue, early, arrivals, k) <==> CalmTo(c, queue, early, arrivals, k)
  {
    if k > 0 {
      var j := k - 1;
      var calm := CalmTo(c, queue, early, arrivals, j);
      assert OnTurnTo(c, queue, early, arrivals, j) <==> calm by {
        SnapshotIffCalm(c, queue, early, arrivals, j);
      }
      assert calm ==> (OnTurn(c, queue, early, arrivals, j) <==> CalmAt(c, queue, early, arrivals, j)) by {
        if calm {
          CalmTurn(c, queue, early, arrivals, j);
        }
      }
    }
  }

  const LOW: Message := Message(1, [0, 0, 0, 5])
  const HIGH: Message := Message(2, [0, 0, 0, 6])

  function SendsHigh(t: nat): seq<Message> {
    if t == 0 then [HIGH] else []
  }

  /** A message sent during the call can be dispatched by the same call, ahead of a waiting message. */
  lemma Overtakes()
    ensures Turns(Limits(2, 4), [LOW, LOW], SendsHigh, 2) == [LOW, HIGH]
    ensures Start(Limits(2, 4), [LOW, LOW], []) == [LOW, LOW] && !CalmAt(Limits(2, 4), [LOW, LOW], [], SendsHigh, 1)
  {
    var c := Limits(2, 4);
    assert Without([LOW, LOW], 0) == [LOW] by {
      WithoutIs([LOW, LOW], 0);
    }
    assert QueueAt(c, [LOW, LOW], SendsHigh, 0) == [LOW, LOW];
    assert SentAt(c, [LOW, LOW], SendsHigh, 0, 0) == [LOW];
    assert SentAt(c, [LOW, LOW], SendsHigh, 0, 1) == [LOW, HIGH];
    assert QueueAt(c, [LOW, LOW], SendsHigh, 1) == [LOW, HIGH];
    assert TurnAt(c, [LOW, LOW], SendsHigh, 0) == LOW && TurnAt(c, [LOW, LOW], SendsHigh, 1) == HIGH;
    assert Turns(c, [LOW, LOW], SendsHigh, 1) == [LOW];
    assert LeftAt([LOW, LOW], 1) == [LOW];
    assert NewsAt(c, 2, [], SendsHigh, 0) == [];
    assert Posted(c, 1, [], [HIGH], 1) == [HIGH];
    assert NewsAt(c, 2, [], SendsHigh, 1)[0] == HIGH;
  }

  // ---- The component ----

  /** The queue's contract for a send: refused when too long, then when full (`Q.PriorityQueue.Send`). */
  function SendStatus(c: Limits, queue: seq<Message>, bytes: seq<Byte>): Q.Status {
    if |bytes| > c.size then Q.SizeMismatch else if |queue| >= c.depth then Q.Full else Q.OpOk
  }

  /** What becomes of a send: an assert, a wait for room, or a status. */
  datatype Sending = Asserts | Waits | Returned(status: Q.Status)

  /** The queued component, over the message sequence that `Q.PriorityQueue` keeps. */
  class QueuedBase {
    const limits: Limits
    var queue: seq<Message>
    var dropped: nat

    /** The messages dispatched so far. */
    ghost var dispatched: seq<Message>

    constructor (limits: Limits)
      ensures this.limits == limits && queue == [] && dropped == 0 && dispatched == []
    {
      this.limits := limits;
      queue, dropped, dispatched := [], 0, [];
    }

    /** Send under a queue-full policy; a send that waits has not changed anything yet. */
    method SendMessage(bytes: seq<Byte>, priority: nat, policy: Policy) returns (r: Sending)
      modifies `queue, `dropped
      ensures var full := |old(queue)| >= limits.depth;
              && (r == Asserts <==> |bytes| > limits.size || (full && policy == Assert))
              && (r == Waits <==> |bytes| <= limits.size && full && policy == Block)
              && (r.Returned? ==> r.status == if full then Q.Full else Q.OpOk)
              && queue == (if r == Returned(Q.OpOk) then old(queue) + [Message(priority, bytes)] else old(queue))
              && dropped == old(dropped) + (if r == Returned(Q.Full) && policy == Drop then 1 else 0)
    {
      var status := SendStatus(limits, queue, bytes);
      if status == Q.OpOk {
        queue := queue + [Message(priority, bytes)];
      }
      if status == Q.Full && policy == Block {
        return Waits;
      }
      match policy {
        case Drop =>
          if status == Q.Full {
            dropped := dropped + 1;
          } else if status != Q.OpOk {
            return Asserts;
          }
        case Hook =>
          if status != Q.Full && status != Q.OpOk {
            return Asserts;
          }
        case _ =>
          if status != Q.OpOk {
            return Asserts;
          }
      }
      r := Returned(status);
    }

    /** Receive and dispatch one message, without waiting for one. */
    method DoDispatch(handlers: Handlers) returns (answer: Answer)
      modifies `queue, `dispatched
      ensures old(queue) == [] ==> answer == DispatchEmpty && queue == [] && dispatched == old(dispatched)
      ensures old(queue) != [] ==>
                var k := Best(old(queue));
                && queue == Without(old(queue), k) && dispatched == old(dispatched) + [old(queue)[k]]
                && answer == Reply(handlers, old(queue)[k].bytes)
    {
      if queue == [] {
        return DispatchEmpty;
      }
      var k := Best(queue);
      var bytes := queue[k].bytes;
      dispatched := dispatched + [queue[k]];
      queue := Without(queue, k);
      var view := new Buffer(|bytes|);
      var deser := view.WriteRaw(bytes);
      assert view.bytes == bytes;
      var msgType: int;
      deser, msgType := view.ReadI32();
      if deser != SerOk {
        return DispatchError;
      }
      if msgType == EXIT_MSG_TYPE {
        return DispatchExit;
      }
      answer := handlers(bytes);
    }

    /** What other threads and the handlers send. */
    method Arrive(ms: seq<Message>)
      modifies `queue, `dropped
      ensures queue == Posted(limits, 0, old(queue), ms, |ms|)
    {
      for i := 0 to |ms|
        invariant queue == Posted(limits, 0, old(queue), ms, i)
      {
        var _ := SendMessage(ms[i].bytes, ms[i].priority, Drop);
      }
    }

    /** Turn `i` of a loop of `n` turns that found `start`. */
    method Turn(handlers: Handlers, arrivals: Arrivals, i: nat, ghost n: nat, ghost start: seq<Message>, ghost out: seq<Message>)
      returns (answer: Answer, ghost m: Message)
      requires i < n <= |start| && Running(limits, handlers, start, arrivals, i, queue, out)
      modifies this
      ensures dispatched == old(dispatched) + [m]
      ensures answer == DispatchOk ==> Running(limits, handlers, start, arrivals, i + 1, queue, out + [m])
      ensures answer != DispatchOk ==> Ran(limits, handlers, start, arrivals, n, i + 1, answer, queue, out + [m])
    {
      m := queue[Best(queue)];
      answer := DoDispatch(handlers);
      Arrive(arrivals(i));
      QueueMoves(limits, start, arrivals, i);
      TurnTaken(limits, handlers, start, arrivals, i, out);
    }

    /** At most `n` turns. */
    method Loop(handlers: Handlers, arrivals: Arrivals, n: nat) returns (answer: Answer, ghost turns: nat, ghost out: seq<Message>)
      requires n <= |queue|
      modifies this
      ensures dispatched == old(dispatched) + out
      ensures Ran(limits, handlers, old(queue), arrivals, n, turns, answer, queue, out)
    {
      ghost var start, before := queue, dispatched;
      turns, out := 0, [];
      for i := 0 to n
        invariant turns == i && Running(limits, handlers, start, arrivals, i, queue, out)
        invariant dispatched == before + out
      {
        ghost var m;
        answer, m := Turn(handlers, arrivals, i, n, start, out);
        Regroup(before, out, [m]);
        turns, out := turns + 1, out + [m];
        if answer != DispatchOk {
          return;
        }
      }
      answer := DispatchOk;
    }

    /**
     Dispatch at most the number of messages counted when the call began, up to the first answer other
     than OK, while others send: `early` between the count and the first turn, `arrivals` during the turns.
     */
    method DispatchAvailable(handlers: Handlers, early: seq<Message>, arrivals: Arrivals)
      returns (answer: Answer, ghost turns: nat, ghost out: seq<Message>)
      modifies this
      ensures dispatched == old(dispatched) + out
      ensures Ran(limits, handlers, Start(limits, old(queue), early), arrivals, |old(queue)|, turns, answer, queue, out)
    {
      var available := |queue|;
      Arrive(early);
      answer, turns, out := Loop(handlers, arrivals, available);
    }
  }

  lemma Regroup(a: seq<Message>, b: seq<Message>, c: seq<Message>)
    ensures a + b + c == a + (b + c)
  {}

  lemma TurnTaken(c: Limits, handlers: Handlers, start: seq<Message>, arrivals: Arrivals, i: nat, out: seq<Message>)
    requires i < |start| && out == Turns(c, start, arrivals, i) && AllOk(handlers, out, i)
    ensures var m := TurnAt(c, start, arrivals, i);
            && out + [m] == Turns(c, start, arrivals, i + 1) && AllOk(handlers, out + [m], i)
            && (Reply(handlers, m.bytes) == DispatchOk ==> AllOk(handlers, out + [m], i + 1))
  {
    AllOkPrefix(handlers, out, [TurnAt(c, start, arrivals, i)], i);
  }

  lemma QueueMoves(c: Limits, start: seq<Message>, arrivals: Arrivals, i: nat)
    requires i < |start|
    ensures var now := QueueAt(c, start, arrivals, i);
            QueueAt(c, start, arrivals, i + 1) == Posted(c, 0, Without(now, Best(now)), arrivals(i), |arrivals(i)|)
  {
    SentIsPosted(c, start, arrivals, i, |arrivals(i)|);
  }
}
