/**
 A component's queue and its dispatch thread, as a transition system over every interleaving of senders,
 the exit request and the dispatch loop.
 */
module Lifecycle {
  import opened Wrappers
  import opened Wire
  import opened StableQueue

  datatype Policy = Assert | Drop | Block | Hook

  datatype Answer = DispatchOk | DispatchEmpty | DispatchError | DispatchExit

  datatype Stage = Created | Dispatching | Finalizing | Done

  /** A state machine instance has one priority and one policy for all of its signals. */
  datatype Instance = Instance(priority: nat, policy: Policy)

  datatype Config = Config(depth: nat, messageSize: nat, signalType: int, instances: map<int, Instance>)

  datatype Action =
    | Send(bytes: seq<Byte>, priority: nat, policy: Policy)
    | Signal(smId: int, signal: int, data: seq<Byte>)
    | Exit
    | Begin
    | Dispatch(answer: Answer)
    | Finalize

  /**
   The messages through the queue. `queue` is the component's, the rest is history: a message's
   serial number is its index in `accepted`, `waiting` holds the serials of `queue` and `received`
   those of `delivered`.
   */
  datatype Flow = Flow(queue: seq<Message>, waiting: seq<nat>, accepted: seq<Message>,
                       received: seq<nat>, delivered: seq<Message>)

  datatype Sys = Sys(stage: Stage, dropped: nat, flow: Flow)

  const EXIT_BYTES: seq<Byte> := [0, 0, 0, 0]

  function Init(): Sys {
    Sys(Created, 0, Flow([], [], [], [], []))
  }

  predicate IsExit(bytes: seq<Byte>) {
    MsgTypeOf(bytes) == Some(EXIT_MSG_TYPE)
  }

  function Accept(f: Flow, m: Message): Flow {
    f.(queue := f.queue + [m], waiting := f.waiting + [|f.accepted|], accepted := f.accepted + [m])
  }

  function Take(f: Flow): Flow
    requires f.queue != [] && |f.waiting| == |f.queue|
  {
    var k := Best(f.queue);
    f.(queue := Without(f.queue, k), waiting := Without(f.waiting, k),
       received := f.received + [f.waiting[k]], delivered := f.delivered + [f.queue[k]])
  }

  /** `send_message`: no successor where the code asserts or, with `Block`, still waits for room. */
  function Post(c: Config, s: Sys, m: Message, policy: Policy): Option<Sys> {
    if |m.bytes| > c.messageSize then None
    else if |s.flow.queue| < c.depth then Some(s.(flow := Accept(s.flow, m)))
    else match policy
      case Drop => Some(s.(dropped := s.dropped + 1))
      case Hook => Some(s)
      case _ => None
  }

  function SignalMessage(c: Config, smId: int, signal: int, data: seq<Byte>): Option<seq<Byte>> {
    if IsI32(c.signalType) && IsI32(smId) && IsI32(signal)
    then Some(SignalHeader(c.signalType, smId, signal) + data) else None
  }

  /** A message too short for a type is an error whatever the handlers would answer. */
  predicate EndsLoop(bytes: seq<Byte>, answer: Answer) {
    MsgTypeOf(bytes).Some? && (IsExit(bytes) || answer == DispatchExit)
  }

  function Next(c: Config, s: Sys, a: Action): Option<Sys> {
    match a
    case Send(bytes, priority, policy) => Post(c, s, Message(priority, bytes), policy)
    case Signal(smId, signal, data) =>
      var bytes := SignalMessage(c, smId, signal, data);
      if smId !in c.instances || bytes.None? then None
      else Post(c, s, Message(c.instances[smId].priority, bytes.value), c.instances[smId].policy)
    case Exit =>
      if |EXIT_BYTES| > c.messageSize || |s.flow.queue| >= c.depth then Some(s)
      else Some(s.(flow := Accept(s.flow, Message(0, EXIT_BYTES))))
    case Begin => if s.stage == Created then Some(s.(stage := Dispatching)) else None
    case Dispatch(answer) =>
      if s.stage == Dispatching && s.flow.queue != [] && |s.flow.waiting| == |s.flow.queue| then
        var ends := EndsLoop(s.flow.queue[Best(s.flow.queue)].bytes, answer);
        Some(s.(flow := Take(s.flow), stage := if ends then Finalizing else Dispatching))
      else None
    case Finalize => if s.stage == Finalizing then Some(s.(stage := Done)) else None
  }

  /** The state a run ends in, if every one of its steps is possible. */
  function After(c: Config, run: seq<Action>): Option<Sys> {
    if run == [] then Some(Init())
    else
      var n := |run| - 1;
      var before := After(c, run[..n]);
      if before.None? then None else Next(c, before.value, run[n])
  }

  // ---- What every step keeps ----

  ghost predicate HeldAt(f: Flow, j: nat)
    requires j < |f.queue| && |f.queue| == |f.waiting|
  {
    f.waiting[j] < |f.accepted| && f.accepted[f.waiting[j]] == f.queue[j]
  }

  ghost predicate GoneAt(f: Flow, q: nat)
    requires q < |f.received| && |f.received| == |f.delivered|
  {
    f.received[q] < |f.accepted| && f.accepted[f.received[q]] == f.delivered[q]
  }

  /** The history variables speak of the same messages. */
  ghost predicate Tied(f: Flow) {
    && |f.queue| == |f.waiting| && |f.received| == |f.delivered|
    && (forall j :: 0 <= j < |f.queue| ==> HeldAt(f, j))
    && (forall q :: 0 <= q < |f.received| ==> GoneAt(f, q))
  }

  /** Accepted message `i` is in the queue or has been received, and not both. */
  ghost predicate OncePlaced(f: Flow, i: nat) {
    (i in f.received) != (i in f.waiting)
  }

  ghost predicate Conserved(f: Flow) {
    && |f.accepted| == |f.received| + |f.waiting|
    && (forall i: nat :: i < |f.accepted| ==> OncePlaced(f, i))
    && (forall p, q :: 0 <= p < q < |f.received| ==> f.received[p] != f.received[q])
    && (forall p, q :: 0 <= p < q < |f.waiting| ==> f.waiting[p] < f.waiting[q])
  }

  /** For each message received, how many had been accepted when it was. */
  function Counts(c: Config, run: seq<Action>): (counts: seq<nat>)
    requires After(c, run).Some?
  {
    if run == [] then []
    else
      var n := |run| - 1;
      Counts(c, run[..n]) + if run[n].Dispatch? then [|After(c, run[..n]).value.flow.accepted|] else []
  }

  /** Message `i` was waiting, beside the one taken, when the `q`th message was received. */
  ghost predicate LeftWaiting(f: Flow, counts: seq<nat>, i: nat, q: nat) {
    && q < |f.received| && q < |counts| && i < |f.accepted|
    && i < counts[q] && i != f.received[q] && i !in f.received[..q]
  }

  /** Message `i` comes after the `q`th message received: lower priority, or the same and accepted later. */
  ghost predicate Yields(f: Flow, i: nat, q: nat)
    requires i < |f.accepted| && q < |f.received| && q < |f.delivered|
  {
    || f.accepted[i].priority < f.delivered[q].priority
    || (f.accepted[i].priority == f.delivered[q].priority && f.received[q] < i)
  }

  /** Everything waiting when the `q`th message was received comes after it, by priority and then by arrival. */
  ghost predicate InTurn(f: Flow, counts: seq<nat>, q: nat)
    requires q < |f.received| && q < |f.delivered|
  {
    && q < |counts| && f.received[q] < counts[q] <= |f.accepted|
    && forall i: nat :: LeftWaiting(f, counts, i, q) ==> Yields(f, i, q)
  }

  ghost predicate Ordered(f: Flow, counts: seq<nat>)
    requires |f.received| == |f.delivered|
  {
    |counts| == |f.received| && forall q :: 0 <= q < |f.received| ==> InTurn(f, counts, q)
  }

  ghost predicate Inv(c: Config, f: Flow, counts: seq<nat>) {
    |f.queue| <= c.depth && Tied(f) && Conserved(f) && Ordered(f, counts)
  }

  lemma AcceptTied(f: Flow, m: Message)
    requires Tied(f)
    ensures Tied(Accept(f, m))
  {
    var g := Accept(f, m);
    forall j | 0 <= j < |g.queue|
      ensures HeldAt(g, j)
    {
      if j < |f.queue| {
        assert HeldAt(f, j);
      }
    }
    forall q | 0 <= q < |g.received|
      ensures GoneAt(g, q)
    {
      assert GoneAt(f, q);
    }
  }

  lemma AcceptConserves(f: Flow, m: Message)
    requires Tied(f) && Conserved(f)
    ensures Conserved(Accept(f, m))
  {
    var g := Accept(f, m);
    forall q | 0 <= q < |f.received|
      ensures f.received[q] < |f.accepted|
    {
      assert GoneAt(f, q);
    }
    forall j | 0 <= j < |f.waiting|
      ensures f.waiting[j] < |f.accepted|
    {
      assert HeldAt(f, j);
    }
    forall i: nat | i < |g.accepted|
      ensures OncePlaced(g, i)
    {
      if i < |f.accepted| {
        assert OncePlaced(f, i);
      } else {
        assert g.waiting[|f.waiting|] == i;
      }
    }
  }

  lemma AcceptKeeps(c: Config, f: Flow, counts: seq<nat>, m: Message)
    requires Inv(c, f, counts) && |f.queue| < c.depth
    ensures Inv(c, Accept(f, m), counts)
  {
    var g := Accept(f, m);
    AcceptTied(f, m);
    AcceptConserves(f, m);
    forall q | 0 <= q < |g.received|
      ensures InTurn(g, counts, q)
    {
      assert InTurn(f, counts, q);
      forall i: nat | LeftWaiting(g, counts, i, q)
        ensures Yields(g, i, q)
      {
        assert LeftWaiting(f, counts, i, q) && Yields(f, i, q);
      }
    }
  }

  lemma TakeTied(f: Flow)
    requires Tied(f) && f.queue != []
    ensures Tied(Take(f))
  {
    var g, k := Take(f), Best(f.queue);
    forall j | 0 <= j < |g.queue|
      ensures HeldAt(g, j)
    {
      WithoutAt(f.queue, k, j);
      WithoutAt(f.waiting, k, j);
      assert HeldAt(f, Shift(j, k));
    }
    forall q | 0 <= q < |g.received|
      ensures GoneAt(g, q)
    {
      if q < |f.received| {
        assert GoneAt(f, q);
      } else {
        assert HeldAt(f, k);
      }
    }
  }

  lemma TakeConserves(f: Flow)
    requires Tied(f) && f.queue != [] && Conserved(f)
    ensures Conserved(Take(f))
  {
    var g, k := Take(f), Best(f.queue);
    forall j | 0 <= j < |g.waiting|
      ensures g.waiting[j] == f.waiting[Shift(j, k)]
    {
      WithoutAt(f.waiting, k, j);
    }
    var x := f.waiting[k];
    assert HeldAt(f, k) && OncePlaced(f, x);
    forall i: nat | i < |g.accepted|
      ensures OncePlaced(g, i)
    {
      assert OncePlaced(f, i);
      if i in f.waiting && i != x {
        var j :| 0 <= j < |f.waiting| && f.waiting[j] == i;
        assert g.waiting[if j < k then j else j - 1] == i;
      }
    }
  }

  /** Everything still waiting after a message is taken comes after it, by priority and then by arrival. */
  lemma TakeInTurn(f: Flow, counts: seq<nat>)
    requires Tied(f) && f.queue != [] && Conserved(f) && |counts| == |f.received|
    ensures InTurn(Take(f), counts + [|f.accepted|], |f.received|)
  {
    var g, k, q := Take(f), Best(f.queue), |f.received|;
    assert HeldAt(f, k);
    forall i: nat | LeftWaiting(g, counts + [|f.accepted|], i, q)
      ensures Yields(g, i, q)
    {
      assert g.received[..q] == f.received;
      assert OncePlaced(f, i);
      var j :| 0 <= j < |f.waiting| && f.waiting[j] == i;
      assert HeldAt(f, j);
    }
  }

  lemma TakeKeeps(c: Config, f: Flow, counts: seq<nat>)
    requires Inv(c, f, counts) && f.queue != []
    ensures Inv(c, Take(f), counts + [|f.accepted|])
  {
    var g, counts' := Take(f), counts + [|f.accepted|];
    TakeTied(f);
    TakeConserves(f);
    TakeInTurn(f, counts);
    forall q | 0 <= q < |f.received|
      ensures InTurn(g, counts', q)
    {
      assert InTurn(f, counts, q);
      assert g.received[..q] == f.received[..q];
      forall i: nat | LeftWaiting(g, counts', i, q)
        ensures Yields(g, i, q)
      {
        assert LeftWaiting(f, counts, i, q) && Yields(f, i, q);
      }
    }
  }

  /** A step accepts a message, takes the best one, or leaves the messages alone. */
  lemma StepKeeps(c: Config, s: Sys, a: Action, counts: seq<nat>)
    requires Inv(c, s.flow, counts) && Next(c, s, a).Some?
    ensures Inv(c, Next(c, s, a).value.flow, if a.Dispatch? then counts + [|s.flow.accepted|] else counts)
  {
    var t := Next(c, s, a).value;
    if a.Dispatch? {
      TakeKeeps(c, s.flow, counts);
    } else if t.flow != s.flow {
      assert |s.flow.queue| < c.depth;
      AcceptKeeps(c, s.flow, counts, t.flow.accepted[|s.flow.accepted|]);
    }
  }

  /**
   In every reachable state accepted = received + pending, each message once; and whenever a message was
   received, every other one waiting then had lower priority, or the same and was accepted later.
   */
  lemma {:induction false} Reachable(c: Config, run: seq<Action>)
    requires After(c, run).Some?
    ensures Inv(c, After(c, run).value.flow, Counts(c, run))
  {
    if run != [] {
      var n := |run| - 1;
      Reachable(c, run[..n]);
      StepKeeps(c, After(c, run[..n]).value, run[n], Counts(c, run[..n]));
      assert !run[n].Dispatch? ==> Counts(c, run[..n]) + [] == Counts(c, run[..n]);
    }
  }

  // ---- Shutdown ----

  function Order(stage: Stage): nat {
    match stage
    case Created => 0
    case Dispatching => 1
    case Finalizing => 2
    case Done => 3
  }

  predicate Ended(s: Sys) {
    Order(s.stage) >= 2
  }

  lemma StageStep(c: Config, s: Sys, a: Action)
    requires Next(c, s, a).Some?
    ensures Order(s.stage) <= Order(Next(c, s, a).value.stage)
    ensures Ended(s) ==> Next(c, s, a).value.flow.received == s.flow.received
  {}

  /** The stage never moves back, and from the moment the loop ends nothing more is received. */
  lemma {:induction false} StageForward(c: Config, run: seq<Action>, more: seq<Action>)
    requires After(c, run + more).Some?
    ensures After(c, run).Some?
    ensures Order(After(c, run).value.stage) <= Order(After(c, run + more).value.stage)
    ensures Ended(After(c, run).value) ==>
              After(c, run + more).value.flow.received == After(c, run).value.flow.received
    decreases |more|
  {
    if more == [] {
      assert run + more == run;
    } else {
      var n := |more| - 1;
      assert (run + more)[..|run| + n] == run + more[..n];
      StageForward(c, run, more[..n]);
      StageStep(c, After(c, run + more[..n]).value, more[n]);
    }
  }

  /** Type 0 is kept for the exit message, and no handler answers for it. */
  predicate Reserved(a: Action) {
    && (a.Send? ==> !IsExit(a.bytes))
    && (a.Dispatch? ==> a.answer != DispatchExit)
  }

  ghost predicate AllReserved(c: Config, run: seq<Action>) {
    c.signalType != EXIT_MSG_TYPE && forall a :: a in run ==> Reserved(a)
  }

  ghost predicate ExitsLowest(accepted: seq<Message>) {
    forall i :: 0 <= i < |accepted| && IsExit(accepted[i].bytes) ==> accepted[i].priority == 0
  }

  /** The loop has ended exactly when an exit message was received. */
  ghost predicate ExitLast(s: Sys) {
    var d := s.flow.delivered;
    Ended(s) <==> d != [] && IsExit(d[|d| - 1].bytes)
  }

  lemma SignalsAreNotExit(c: Config, smId: int, signal: int, data: seq<Byte>)
    requires c.signalType != EXIT_MSG_TYPE && SignalMessage(c, smId, signal, data).Some?
    ensures !IsExit(SignalMessage(c, smId, signal, data).value)
  {
    SignalRoundTrip(c.signalType, smId, signal, data);
  }

  lemma ExitStep(c: Config, s: Sys, a: Action)
    requires Next(c, s, a).Some? && Reserved(a) && c.signalType != EXIT_MSG_TYPE
    requires ExitsLowest(s.flow.accepted) && ExitLast(s)
    ensures ExitsLowest(Next(c, s, a).value.flow.accepted) && ExitLast(Next(c, s, a).value)
  {
    if a.Signal? {
      SignalsAreNotExit(c, a.smId, a.signal, a.data);
    }
  }

  lemma {:induction false} ExitIsLast(c: Config, run: seq<Action>)
    requires After(c, run).Some? && AllReserved(c, run)
    ensures ExitsLowest(After(c, run).value.flow.accepted) && ExitLast(After(c, run).value)
  {
    if run != [] {
      var n := |run| - 1;
      assert forall a :: a in run[..n] ==> a in run;
      ExitIsLast(c, run[..n]);
      assert Reserved(run[n]);
      ExitStep(c, After(c, run[..n]).value, run[n]);
    }
  }

  /** Message `i` has been received, once. */
  ghost predicate ReceivedOnce(f: Flow, i: nat) {
    exists q :: 0 <= q < |f.received| && f.received[q] == i
      && (forall p :: 0 <= p < |f.received| && f.received[p] == i ==> p == q)
  }

  lemma OnlyOnce(f: Flow, i: nat)
    requires Conserved(f) && i in f.received
    ensures ReceivedOnce(f, i)
  {
    var q :| 0 <= q < |f.received| && f.received[q] == i;
    assert forall p :: 0 <= p < |f.received| && f.received[p] == i ==> p == q;
  }

  lemma LastDrains(c: Config, f: Flow, counts: seq<nat>, i: nat)
    requires Inv(c, f, counts) && f.received != []
    requires f.delivered[|f.delivered| - 1].priority == 0 && i <= f.received[|f.received| - 1]
    ensures ReceivedOnce(f, i)
  {
    var q := |f.received| - 1;
    assert i in f.received by {
      assert InTurn(f, counts, q);
      if i < f.received[q] && i !in f.received[..q] {
        assert LeftWaiting(f, counts, i, q);
      }
    }
    OnlyOnce(f, i);
  }

  /** The last message received is an exit message, and every message accepted before it was received exactly once. */
  ghost predicate Drained(f: Flow) {
    && f.received != []
    && var last := f.received[|f.received| - 1];
    && last < |f.accepted| && IsExit(f.accepted[last].bytes)
    && forall i: nat :: i <= last ==> ReceivedOnce(f, i)
  }

  /** When the lifecycle reaches the finalizer the queue has been drained up to the exit message, and whatever happens later nothing else is received. */
  lemma ShutdownDrains(c: Config, run: seq<Action>, more: seq<Action>)
    requires After(c, run).Some? && After(c, run + more).Some? && AllReserved(c, run)
    requires Ended(After(c, run).value)
    ensures Drained(After(c, run).value.flow)
    ensures After(c, run + more).value.flow.received == After(c, run).value.flow.received
  {
    StageForward(c, run, more);
    Reachable(c, run);
    ExitIsLast(c, run);
    var f := After(c, run).value.flow;
    assert GoneAt(f, |f.received| - 1);
    forall i: nat | i <= f.received[|f.received| - 1]
      ensures ReceivedOnce(f, i)
    {
      LastDrains(c, f, Counts(c, run), i);
    }
  }

  // ---- Signals of one state machine instance ----

  predicate Mine(c: Config, smId: int, m: Message) {
    && MsgTypeOf(m.bytes) == Some(c.signalType)
    && SignalOf(m.bytes).Some? && SignalOf(m.bytes).value.0 == smId
  }

  /** The signals for `smId` that a dispatcher decodes from these messages, in order. */
  function Signals(c: Config, smId: int, ms: seq<Message>): seq<int> {
    if ms == [] then []
    else (if Mine(c, smId, ms[0]) then [SignalOf(ms[0].bytes).value.1] else []) + Signals(c, smId, ms[1..])
  }

  /** The signals sent to `smId` that the queue accepted, in the order of sending. */
  function Sent(c: Config, smId: int, run: seq<Action>): seq<int>
    requires After(c, run).Some?
  {
    if run == [] then []
    else
      var n := |run| - 1;
      var accepted := |After(c, run[..n]).value.flow.queue| < c.depth;
      Sent(c, smId, run[..n])
        + (if run[n].Signal? && run[n].smId == smId && accepted then [run[n].signal] else [])
  }

  lemma {:induction false} SignalsAppend(c: Config, smId: int, a: seq<Message>, b: seq<Message>)
    ensures Signals(c, smId, a + b) == Signals(c, smId, a) + Signals(c, smId, b)
  {
    if a == [] {
      assert a + b == b;
    } else {
      assert (a + b)[1..] == a[1..] + b;
      SignalsAppend(c, smId, a[1..], b);
    }
  }

  lemma {:induction false} NoSignals(c: Config, smId: int, ms: seq<Message>)
    requires forall j :: 0 <= j < |ms| ==> !Mine(c, smId, ms[j])
    ensures Signals(c, smId, ms) == []
  {
    if ms != [] {
      NoSignals(c, smId, ms[1..]);
    }
  }

  ghost predicate OnePriority(c: Config, smId: int, queue: seq<Message>) {
    forall j :: 0 <= j < |queue| && Mine(c, smId, queue[j]) ==>
      smId in c.instances && queue[j].priority == c.instances[smId].priority
  }

  lemma SignalsSplit(c: Config, smId: int, ms: seq<Message>, k: nat)
    requires k < |ms|
    ensures Signals(c, smId, ms) == Signals(c, smId, ms[..k]) + (Signals(c, smId, [ms[k]]) + Signals(c, smId, ms[k + 1..]))
    ensures Signals(c, smId, Without(ms, k)) == Signals(c, smId, ms[..k]) + Signals(c, smId, ms[k + 1..])
  {
    WithoutIs(ms, k);
    SignalsAppend(c, smId, ms[..k], ms[k + 1..]);
    SignalsAppend(c, smId, ms[..k], [ms[k]] + ms[k + 1..]);
    SignalsAppend(c, smId, [ms[k]], ms[k + 1..]);
    assert ms[..k] + ([ms[k]] + ms[k + 1..]) == ms;
  }

  /** Taking the best message takes the instance's oldest signal, or none of its signals. */
  lemma TakeSignals(c: Config, smId: int, queue: seq<Message>)
    requires queue != [] && OnePriority(c, smId, queue)
    ensures var k := Best(queue);
            Signals(c, smId, queue) == Signals(c, smId, [queue[k]]) + Signals(c, smId, Without(queue, k))
  {
    var k := Best(queue);
    SignalsSplit(c, smId, queue, k);
    if Mine(c, smId, queue[k]) {
      NoSignals(c, smId, queue[..k]);
    } else {
      NoSignals(c, smId, [queue[k]]);
    }
  }

  /** Only the signal senders use the signal message type. */
  predicate Typed(c: Config, a: Action) {
    a.Send? ==> MsgTypeOf(a.bytes) != Some(c.signalType)
  }

  ghost predicate AllTyped(c: Config, run: seq<Action>) {
    c.signalType != EXIT_MSG_TYPE && forall a :: a in run ==> Typed(c, a)
  }

  ghost predicate Delivers(c: Config, smId: int, f: Flow, sent: seq<int>) {
    && OnePriority(c, smId, f.queue)
    && Signals(c, smId, f.delivered) + Signals(c, smId, f.queue) == sent
  }

  lemma AcceptDelivers(c: Config, smId: int, f: Flow, m: Message, sent: seq<int>)
    requires Delivers(c, smId, f, sent)
    requires Mine(c, smId, m) ==> smId in c.instances && m.priority == c.instances[smId].priority
    ensures Delivers(c, smId, Accept(f, m), sent + Signals(c, smId, [m]))
  {
    SignalsAppend(c, smId, f.queue, [m]);
  }

  lemma OtherDelivers(c: Config, smId: int, f: Flow, m: Message, sent: seq<int>)
    requires Delivers(c, smId, f, sent) && !Mine(c, smId, m)
    ensures Delivers(c, smId, Accept(f, m), sent)
  {
    AcceptDelivers(c, smId, f, m, sent);
    NoSignals(c, smId, [m]);
    assert sent + [] == sent;
  }

  lemma TakeDelivers(c: Config, smId: int, f: Flow, sent: seq<int>)
    requires Delivers(c, smId, f, sent) && f.queue != [] && |f.waiting| == |f.queue|
    ensures Delivers(c, smId, Take(f), sent)
  {
    var k := Best(f.queue);
    TakeSignals(c, smId, f.queue);
    SignalsAppend(c, smId, f.delivered, [f.queue[k]]);
    forall j | 0 <= j < |f.queue| - 1
      ensures Without(f.queue, k)[j] == f.queue[Shift(j, k)]
    {
      WithoutAt(f.queue, k, j);
    }
  }

  lemma SignalDelivers(c: Config, smId: int, s: Sys, a: Action, sent: seq<int>)
    requires Delivers(c, smId, s.flow, sent) && a.Signal? && Next(c, s, a).Some? && |s.flow.queue| < c.depth
    ensures Delivers(c, smId, Next(c, s, a).value.flow, sent + (if a.smId == smId then [a.signal] else []))
  {
    var m := Message(c.instances[a.smId].priority, SignalMessage(c, a.smId, a.signal, a.data).value);
    SignalRoundTrip(c.signalType, a.smId, a.signal, a.data);
    if a.smId == smId {
      AcceptDelivers(c, smId, s.flow, m, sent);
      assert Signals(c, smId, [m]) == [a.signal] by {
        assert [m][1..] == [];
      }
    } else {
      OtherDelivers(c, smId, s.flow, m, sent);
      assert sent + [] == sent;
    }
  }

  lemma StepDelivers(c: Config, smId: int, s: Sys, a: Action, sent: seq<int>)
    requires Delivers(c, smId, s.flow, sent) && Next(c, s, a).Some?
    requires c.signalType != EXIT_MSG_TYPE && Typed(c, a)
    ensures Delivers(c, smId, Next(c, s, a).value.flow,
                     sent + (if a.Signal? && a.smId == smId && |s.flow.queue| < c.depth then [a.signal] else []))
  {
    assert sent + [] == sent;
    match a
    case Send(bytes, priority, _) => OtherDelivers(c, smId, s.flow, Message(priority, bytes), sent);
    case Signal(_, _, _) =>
      if |s.flow.queue| < c.depth {
        SignalDelivers(c, smId, s, a, sent);
      }
    case Exit => OtherDelivers(c, smId, s.flow, Message(0, EXIT_BYTES), sent);
    case Dispatch(_) => TakeDelivers(c, smId, s.flow, sent);
    case _ =>
  }

  /** Whatever the interleaving, an instance is given exactly the signals the queue accepted for it, in send order. */
  lemma {:induction false} SignalsInOrder(c: Config, smId: int, run: seq<Action>)
    requires After(c, run).Some? && AllTyped(c, run)
    ensures var f := After(c, run).value.flow;
            Signals(c, smId, f.delivered) + Signals(c, smId, f.queue) == Sent(c, smId, run)
    ensures OnePriority(c, smId, After(c, run).value.flow.queue)
  {
    if run != [] {
      var n := |run| - 1;
      assert forall a :: a in run[..n] ==> a in run;
      SignalsInOrder(c, smId, run[..n]);
      StepDelivers(c, smId, After(c, run[..n]).value, run[n], Sent(c, smId, run[..n]));
    }
  }
}
