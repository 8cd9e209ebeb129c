/**
 From senders to the state machine: the messages a component receives for one instance, read back
 and executed by the engine.
 */
module SignalDispatch {
  import opened Wrappers
  import opened Wire
  import opened StableQueue
  import opened Flat
  import opened Engine
  import Runs
  import L = Lifecycle

  type Oracle = (seq<Event>, Name) -> bool

  /**
   A message passes the asserts of the dispatch to instance `smId`: if it is of the signal type it has a
   whole signal header, and if it is for the instance its signal is known and nothing is left behind it.
   */
  predicate Sound(c: L.Config, smId: int, m: Machine, msg: Message) {
    MsgTypeOf(msg.bytes) == Some(c.signalType) ==>
      && SignalOf(msg.bytes).Some?
      && (L.Mine(c, smId, msg) ==> SignalOf(msg.bytes).value.1 in m.signals && |msg.bytes| == 14)
  }

  /** The first `n` messages are sound. */
  predicate AllSound(c: L.Config, smId: int, m: Machine, ms: seq<Message>, n: nat)
    requires n <= |ms|
  {
    n == 0 || (AllSound(c, smId, m, ms, n - 1) && Sound(c, smId, m, ms[n - 1]))
  }

  // ---- What the instance hears ----

  lemma {:induction false} AllSoundAt(c: L.Config, smId: int, m: Machine, ms: seq<Message>, n: nat, i: nat)
    requires i < n <= |ms| && AllSound(c, smId, m, ms, n)
    ensures Sound(c, smId, m, ms[i])
  {
    if i < n - 1 {
      AllSoundAt(c, smId, m, ms, n - 1, i);
    }
  }

  lemma {:induction false} SoundIfAll(c: L.Config, smId: int, m: Machine, ms: seq<Message>, n: nat)
    requires n <= |ms| && forall i :: 0 <= i < n ==> Sound(c, smId, m, ms[i])
    ensures AllSound(c, smId, m, ms, n)
  {
    if n > 0 {
      SoundIfAll(c, smId, m, ms, n - 1);
    }
  }

  ghost predicate Known(m: Machine, signals: seq<Signal>) {
    forall s :: s in signals ==> s in m.signals
  }

  lemma HeardStep(c: L.Config, smId: int, ms: seq<Message>, i: nat)
    requires i < |ms|
    ensures L.Signals(c, smId, ms[..i + 1])
         == L.Signals(c, smId, ms[..i]) + (if L.Mine(c, smId, ms[i]) then [SignalOf(ms[i].bytes).value.1] else [])
  {
    assert ms[..i + 1] == ms[..i] + [ms[i]];
    L.SignalsAppend(c, smId, ms[..i], [ms[i]]);
    assert [ms[i]][1..] == [];
    assert L.Signals(c, smId, []) == [];
  }

  lemma {:induction false} HeardKnown(c: L.Config, smId: int, m: Machine, ms: seq<Message>, n: nat)
    requires n <= |ms| && AllSound(c, smId, m, ms, n)
    ensures Known(m, L.Signals(c, smId, ms[..n]))
  {
    if n > 0 {
      HeardKnown(c, smId, m, ms, n - 1);
      HeardStep(c, smId, ms, n - 1);
    }
  }

  // ---- Dispatch ----

  /** `dispatch_signal`: an unknown signal or leftover bytes fail an assert, and so does the step before init or inside another. */
  method Dispatch(sm: StateMachine, h: Handlers, signal: int, view: Buffer) returns (ok: bool)
    requires WellFormed(sm.m) && view.Valid() && (sm.core.state.Some? ==> IsLeaf(sm.m, sm.core.state.value))
    modifies h, sm.core
    ensures ok <==> signal in sm.m.signals && view.deser == |view.bytes| && !old(sm.core.running) && old(sm.core.state).Some?
    ensures ok ==> !sm.core.running && sm.core.id == old(sm.core.id)
    ensures ok ==> sm.Now(h) == Exec(sm.EnvOf(h, signal), FlatSignal(sm.m, old(sm.core.state).value, signal), old(sm.Now(h)))
  {
    if signal !in sm.m.signals || view.deser != |view.bytes| {
      return false;
    }
    ok := sm.SendSignal(signal, h);
  }

  /** What handling a sound message does to an instance with this id. */
  ghost predicate Handled(c: L.Config, smId: int, m: Machine, id: int, answer: Oracle, msg: Message, before: Conf, now: Conf)
    requires WellFormed(m) && Sound(c, smId, m, msg)
    requires L.Mine(c, smId, msg) ==> before.state.Some? && IsLeaf(m, before.state.value)
  {
    if L.Mine(c, smId, msg) then
      var s := SignalOf(msg.bytes).value.1;
      now == Exec(Env(id, s, answer), FlatSignal(m, before.state.value, s), before)
    else now == before
  }

  /** One message received by the component, as far as instance `smId` is concerned. */
  method Handle(c: L.Config, smId: int, sm: StateMachine, h: Handlers, msg: Message) returns (ok: bool)
    requires WellFormed(sm.m) && (sm.core.state.Some? ==> IsLeaf(sm.m, sm.core.state.value))
    modifies h, sm.core
    ensures ok <==> Sound(c, smId, sm.m, msg) && (L.Mine(c, smId, msg) ==> !old(sm.core.running) && old(sm.core.state).Some?)
    ensures ok ==> sm.core.running == old(sm.core.running) && sm.core.id == old(sm.core.id)
    ensures ok ==> Handled(c, smId, sm.m, sm.core.id, h.answer, msg, old(sm.Now(h)), sm.Now(h))
  {
    var view := new Buffer(|msg.bytes|);
    var status := view.WriteRaw(msg.bytes);
    assert view.bytes == msg.bytes;
    var msgType: int;
    status, msgType := view.ReadI32();
    if status != SerOk || msgType != c.signalType {
      return true;
    }
    var read := view.ReadSignalHeader();
    if read.None? {
      return false;
    }
    if read.value.0 != smId {
      return true;
    }
    ok := Dispatch(sm, h, read.value.1, view);
  }

  /** The instance and what it is connected to, between two messages. */
  ghost predicate Ready(sm: StateMachine, h: Handlers, m: Machine, smId: int, answer: Oracle)
    reads h, sm.core
  {
    sm.m == m && h.answer == answer && !sm.core.running && sm.core.id == smId
  }

  /** Message `i` of those the component receives. */
  method Hear(c: L.Config, smId: int, sm: StateMachine, h: Handlers, ghost answer: Oracle, ms: seq<Message>, i: nat) returns (ok: bool)
    requires i < |ms| && Ready(sm, h, sm.m, smId, answer) && Hearing(c, smId, sm.m, answer, ms, i, sm.Now(h))
    modifies h, sm.core
    ensures ok <==> Sound(c, smId, sm.m, ms[i])
    ensures ok ==> Ready(sm, h, sm.m, smId, answer) && Hearing(c, smId, sm.m, answer, ms, i + 1, sm.Now(h))
  {
    HearingLeaf(c, smId, sm.m, answer, ms, i, sm.Now(h));
    ghost var before := sm.Now(h);
    ok := Handle(c, smId, sm, h, ms[i]);
    if ok {
      HearingStep(c, smId, sm.m, answer, ms, i, before, sm.Now(h));
    }
  }

  /** A fresh instance after its initial transition. */
  method Start(smId: int, m: Machine, answer: Oracle) returns (sm: StateMachine, h: Handlers)
    requires WellFormed(m)
    ensures fresh(sm) && fresh(sm.core) && fresh(h) && Ready(sm, h, m, smId, answer)
    ensures sm.Now(h) == Exec(Env(smId, INITIAL_TRANSITION, answer), FlatInit(m), Conf([], None))
  {
    h := new Handlers(answer);
    sm := new StateMachine(m);
    var ok := sm.Init(smId, h);
  }

  /**
   A fresh instance that is given the messages of a component, in order, passes every assert exactly
   when they are sound, and then does the run of the signals they carry for it.
   */
  method Execute(c: L.Config, smId: int, m: Machine, answer: Oracle, ms: seq<Message>)
    returns (r: Option<(seq<Event>, State)>)
    requires WellFormed(m)
    ensures r.Some? <==> AllSound(c, smId, m, ms, |ms|)
    ensures r.Some? ==> Known(m, L.Signals(c, smId, ms))
                        && Conf(r.value.0, r.value.1) == Runs.After(m, smId, answer, L.Signals(c, smId, ms))
  {
    var sm, h := Start(smId, m, answer);
    HearingStarts(c, smId, m, answer, ms, sm.Now(h));
    for i := 0 to |ms|
      invariant Ready(sm, h, m, smId, answer) && Hearing(c, smId, m, answer, ms, i, sm.Now(h))
    {
      var ok := Hear(c, smId, sm, h, answer, ms, i);
      if !ok {
        NotSound(c, smId, m, ms, i);
        return None;
      }
    }
    HearingEnds(c, smId, m, answer, ms, sm.Now(h));
    r := Some((h.log, sm.core.state));
  }

  /** After the first `i` messages, all sound, the instance is where the run of their signals ends. */
  ghost predicate Hearing(c: L.Config, smId: int, m: Machine, answer: Oracle, ms: seq<Message>, i: nat, now: Conf) {
    && WellFormed(m) && i <= |ms| && AllSound(c, smId, m, ms, i)
    && Known(m, L.Signals(c, smId, ms[..i]))
    && now == Runs.After(m, smId, answer, L.Signals(c, smId, ms[..i]))
  }

  lemma HearingStarts(c: L.Config, smId: int, m: Machine, answer: Oracle, ms: seq<Message>, now: Conf)
    requires WellFormed(m) && now == Exec(Env(smId, INITIAL_TRANSITION, answer), FlatInit(m), Conf([], None))
    ensures Hearing(c, smId, m, answer, ms, 0, now)
  {
    assert L.Signals(c, smId, ms[..0]) == [];
  }

  lemma HearingEnds(c: L.Config, smId: int, m: Machine, answer: Oracle, ms: seq<Message>, now: Conf)
    requires Hearing(c, smId, m, answer, ms, |ms|, now)
    ensures AllSound(c, smId, m, ms, |ms|) && Known(m, L.Signals(c, smId, ms))
    ensures now == Runs.After(m, smId, answer, L.Signals(c, smId, ms))
  {
    assert ms[..|ms|] == ms;
  }

  lemma HearingLeaf(c: L.Config, smId: int, m: Machine, answer: Oracle, ms: seq<Message>, i: nat, now: Conf)
    requires Hearing(c, smId, m, answer, ms, i, now)
    ensures now.state.Some? && IsLeaf(m, now.state.value)
  {}

  lemma HearingStep(c: L.Config, smId: int, m: Machine, answer: Oracle, ms: seq<Message>, i: nat, before: Conf, now: Conf)
    requires i < |ms| && Hearing(c, smId, m, answer, ms, i, before) && Sound(c, smId, m, ms[i])
    requires before.state.Some? && IsLeaf(m, before.state.value)
    requires Handled(c, smId, m, smId, answer, ms[i], before, now)
    ensures Hearing(c, smId, m, answer, ms, i + 1, now)
  {
    HeardKnown(c, smId, m, ms, i + 1);
    Heard(c, smId, m, answer, ms, i);
  }

  lemma NotSound(c: L.Config, smId: int, m: Machine, ms: seq<Message>, i: nat)
    requires i < |ms| && !Sound(c, smId, m, ms[i])
    ensures !AllSound(c, smId, m, ms, |ms|)
  {
    if AllSound(c, smId, m, ms, |ms|) {
      AllSoundAt(c, smId, m, ms, |ms|, i);
    }
  }

  lemma AfterOne(m: Machine, smId: int, answer: Oracle, signals: seq<Signal>, s: Signal)
    requires WellFormed(m) && Known(m, signals) && Known(m, signals + [s])
    ensures var before := Runs.After(m, smId, answer, signals);
            && s in m.signals
            && Runs.After(m, smId, answer, signals + [s])
               == Exec(Env(smId, s, answer), FlatSignal(m, before.state.value, s), before)
  {
    assert (signals + [s])[..|signals|] == signals;
    assert s in signals + [s];
  }

  /** The run of one more message. */
  lemma Heard(c: L.Config, smId: int, m: Machine, answer: Oracle, ms: seq<Message>, i: nat)
    requires WellFormed(m) && i < |ms| && AllSound(c, smId, m, ms, i + 1)
    requires Known(m, L.Signals(c, smId, ms[..i])) && Known(m, L.Signals(c, smId, ms[..i + 1]))
    ensures var before := Runs.After(m, smId, answer, L.Signals(c, smId, ms[..i]));
            var after := Runs.After(m, smId, answer, L.Signals(c, smId, ms[..i + 1]));
            if L.Mine(c, smId, ms[i]) then
              var s := SignalOf(ms[i].bytes).value.1;
              s in m.signals && after == Exec(Env(smId, s, answer), FlatSignal(m, before.state.value, s), before)
            else after == before
  {
    HeardStep(c, smId, ms, i);
    if L.Mine(c, smId, ms[i]) {
      AfterOne(m, smId, answer, L.Signals(c, smId, ms[..i]), SignalOf(ms[i].bytes).value.1);
    } else {
      assert L.Signals(c, smId, ms[..i + 1]) == L.Signals(c, smId, ms[..i]);
    }
  }

  // ---- Every interleaving ----

  /** What is sent to `smId` are signals the machine knows, without data. */
  ghost predicate SendsKnown(smId: int, m: Machine, run: seq<L.Action>) {
    forall a :: a in run && a.Signal? && a.smId == smId ==> a.signal in m.signals && a.data == []
  }

  lemma SentIsSound(c: L.Config, smId: int, m: Machine, a: L.Action, priority: nat)
    requires a.Signal? && L.SignalMessage(c, a.smId, a.signal, a.data).Some?
    requires a.smId == smId ==> a.signal in m.signals && a.data == []
    ensures Sound(c, smId, m, Message(priority, L.SignalMessage(c, a.smId, a.signal, a.data).value))
  {
    SignalRoundTrip(c.signalType, a.smId, a.signal, a.data);
  }

  lemma StepSound(c: L.Config, smId: int, m: Machine, s: L.Sys, a: L.Action)
    requires L.Next(c, s, a).Some? && c.signalType != EXIT_MSG_TYPE && L.Typed(c, a)
    requires a.Signal? && a.smId == smId ==> a.signal in m.signals && a.data == []
    requires forall i :: 0 <= i < |s.flow.accepted| ==> Sound(c, smId, m, s.flow.accepted[i])
    ensures var after := L.Next(c, s, a).value.flow.accepted;
            forall i :: 0 <= i < |after| ==> Sound(c, smId, m, after[i])
  {
    if a.Signal? {
      SentIsSound(c, smId, m, a, c.instances[a.smId].priority);
    }
  }

  lemma {:induction false} AcceptedSound(c: L.Config, smId: int, m: Machine, run: seq<L.Action>)
    requires L.After(c, run).Some? && L.AllTyped(c, run) && SendsKnown(smId, m, run)
    ensures var accepted := L.After(c, run).value.flow.accepted;
            forall i :: 0 <= i < |accepted| ==> Sound(c, smId, m, accepted[i])
  {
    if run != [] {
      var n := |run| - 1;
      assert forall a :: a in run[..n] ==> a in run;
      AcceptedSound(c, smId, m, run[..n]);
      assert run[n] in run;
      StepSound(c, smId, m, L.After(c, run[..n]).value, run[n]);
    }
  }

  lemma DeliveredSound(c: L.Config, smId: int, m: Machine, run: seq<L.Action>)
    requires L.After(c, run).Some? && L.AllTyped(c, run) && SendsKnown(smId, m, run)
    ensures var delivered := L.After(c, run).value.flow.delivered;
            AllSound(c, smId, m, delivered, |delivered|)
  {
    var f := L.After(c, run).value.flow;
    AcceptedSound(c, smId, m, run);
    L.Reachable(c, run);
    forall q | 0 <= q < |f.delivered|
      ensures Sound(c, smId, m, f.delivered[q])
    {
      assert L.GoneAt(f, q);
    }
    SoundIfAll(c, smId, m, f.delivered, |f.delivered|);
  }

  /**
   Whatever the interleaving of senders and dispatches, no assert fails, and the instance has done
   exactly the run of the first signals that the queue accepted for it: of all but those still pending.
   */
  method EndToEnd(c: L.Config, smId: int, m: Machine, answer: Oracle, run: seq<L.Action>)
    returns (log: seq<Event>, state: State)
    requires WellFormed(m) && L.After(c, run).Some? && L.AllTyped(c, run) && SendsKnown(smId, m, run)
    ensures var f := L.After(c, run).value.flow;
            var heard := L.Signals(c, smId, f.delivered);
            && heard + L.Signals(c, smId, f.queue) == L.Sent(c, smId, run)
            && Known(m, heard) && Conf(log, state) == Runs.After(m, smId, answer, heard)
            && Runs.RunsBy(m, smId, answer, heard, log, state)
  {
    DeliveredSound(c, smId, m, run);
    L.SignalsInOrder(c, smId, run);
    var r := Execute(c, smId, m, answer, L.After(c, run).value.flow.delivered);
    log, state := r.value.0, r.value.1;
    Runs.RunMeans(m, smId, answer, L.Signals(c, smId, L.After(c, run).value.flow.delivered));
  }
}
