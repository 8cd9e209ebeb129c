/** What becomes of everything sent to a component, counted over whole runs, and when its loop ends. */
module Accounting {
  import opened Wrappers
  import opened Wire
  import opened StableQueue
  import opened Lifecycle
  import Q = Queued

  // ---- Sending ----

  /** The message of a send or a signal, with the policy for a full queue. */
  function Posting(c: Config, a: Action): Option<(Message, Policy)> {
    match a
    case Send(bytes, priority, policy) => Some((Message(priority, bytes), policy))
    case Signal(smId, signal, data) =>
      if smId in c.instances && IsI32(c.signalType) && IsI32(smId) && IsI32(signal)
      then
        var bytes := SignalHeader(c.signalType, smId, signal) + data;
        Some((Message(c.instances[smId].priority, bytes), c.instances[smId].policy))
      else None
    case _ => None
  }

  predicate Room(c: Config, s: Sys) { |s.flow.queue| < c.depth }

  /** A send goes through exactly if it is not too long and there is room or the policy does not wait or assert. */
  lemma SendIff(c: Config, s: Sys, a: Action)
    requires a.Send? || a.Signal?
    ensures Next(c, s, a).Some? <==>
              var p := Posting(c, a);
              && p.Some? && |p.value.0.bytes| <= c.messageSize
              && (Room(c, s) || p.value.1 == Drop || p.value.1 == Hook)
  {}

  /** Asking the loop to end never waits and never fails. */
  lemma ExitAlways(c: Config, s: Sys)
    ensures Next(c, s, Exit).Some?
  {}

  /** The message that step `a` puts in the queue, if it finds room. */
  function Offered(c: Config, a: Action): Option<Message> {
    if a.Exit? then (if c.messageSize < 4 then None else Some(Message(0, [0, 0, 0, 0])))
    else if Posting(c, a).None? then None else Some(Posting(c, a).value.0)
  }

  /** The messages that found room in the first `n` steps, in order. */
  function LetIn(c: Config, run: seq<Action>, n: nat): seq<Message>
    requires n <= |run|
  {
    if n == 0 then []
    else
      var s, m := After(c, run[..n - 1]), Offered(c, run[n - 1]);
      LetIn(c, run, n - 1) + if s.Some? && m.Some? && Room(c, s.value) then [m.value] else []
  }

  /** How many of the first `n` steps sent with the dropping policy into a full queue. */
  function TurnedAway(c: Config, run: seq<Action>, n: nat): nat
    requires n <= |run|
  {
    if n == 0 then 0
    else
      var s, p := After(c, run[..n - 1]), Posting(c, run[n - 1]);
      TurnedAway(c, run, n - 1) + if s.Some? && p.Some? && p.value.1 == Drop && !Room(c, s.value) then 1 else 0
  }

  lemma StepCounts(c: Config, s: Sys, a: Action)
    requires Next(c, s, a).Some?
    ensures var s', m, p := Next(c, s, a).value, Offered(c, a), Posting(c, a);
            && s'.flow.accepted == s.flow.accepted + (if m.Some? && Room(c, s) then [m.value] else [])
            && s'.dropped == s.dropped + if p.Some? && p.value.1 == Drop && !Room(c, s) then 1 else 0
  {
    assert s.flow.accepted + [] == s.flow.accepted;
  }

  /**
   Over every run the queue has accepted exactly what was sent while there was room, in order, and the
   count of dropped messages is that of the sends that found none under the dropping policy.
   */
  lemma {:induction false} AllAccounted(c: Config, run: seq<Action>, n: nat)
    requires After(c, run).Some? && n <= |run|
    ensures var s := After(c, run[..n]);
            && s.Some? && s.value.flow.accepted == LetIn(c, run, n) && s.value.dropped == TurnedAway(c, run, n)
    decreases n
  {
    HappensBefore(c, run, n);
    if n > 0 {
      AllAccounted(c, run, n - 1);
      assert run[..n][..n - 1] == run[..n - 1];
      StepCounts(c, After(c, run[..n - 1]).value, run[n - 1]);
    }
  }

  lemma {:induction false} HappensBefore(c: Config, run: seq<Action>, n: nat)
    requires After(c, run).Some? && n <= |run|
    ensures After(c, run[..n]).Some?
    decreases |run|
  {
    if n == |run| {
      assert run[..n] == run;
    } else {
      var m := |run| - 1;
      HappensBefore(c, run[..m], n);
      assert run[..m][..n] == run[..n];
    }
  }

  // ---- Ending ----

  lemma ZeroBytes(b: seq<Byte>)
    requires |b| >= 4
    ensures I32At(b, 0) == 0 <==> b[0] == 0 && b[1] == 0 && b[2] == 0 && b[3] == 0
  {
    var w: nat, x: nat, y: nat, z: nat := b[0], b[1], b[2], b[3];
    assert Unsigned(b, 0, 1) == w;
    assert Unsigned(b, 0, 2) == w * 0x100 + x;
    assert Unsigned(b, 0, 3) == (w * 0x100 + x) * 0x100 + y;
    assert Unsigned(b, 0, 4) == ((w * 0x100 + x) * 0x100 + y) * 0x100 + z;
  }

  /**
   A dispatch ends the loop exactly if the message it takes is long enough to have a type and either begins
   with four zero bytes or is answered with an exit; a message too short to have a type never ends it.
   */
  lemma EndsIff(c: Config, s: Sys, answer: Answer)
    requires Next(c, s, Dispatch(answer)).Some?
    ensures var b := s.flow.queue[Best(s.flow.queue)].bytes;
            Next(c, s, Dispatch(answer)).value.stage == Finalizing <==>
              |b| >= 4 && ((b[0] == 0 && b[1] == 0 && b[2] == 0 && b[3] == 0) || answer == DispatchExit)
  {
    var b := s.flow.queue[Best(s.flow.queue)].bytes;
    if |b| >= 4 {
      ZeroBytes(b);
    }
  }

  /** The loop ends on a message exactly when dispatching it answers with an exit. */
  lemma EndsIffReply(handlers: Q.Handlers, bytes: seq<Byte>)
    ensures EndsLoop(bytes, handlers(bytes)) <==> Q.Reply(handlers, bytes) == DispatchExit
  {}

  /** Type, port number, id and signal stand in the header at 0, 4, 6 and 10, the high byte first. */
  lemma HeaderLayout(msgType: int, smId: int, signal: int)
    requires IsI32(msgType) && IsI32(smId) && IsI32(signal)
    ensures var b := SignalHeader(msgType, smId, signal);
            && |b| == 14 && b[4] == 0 && b[5] == 0
            && BigEndian(b, 0, msgType) && BigEndian(b, 6, smId) && BigEndian(b, 10, signal)
  {
    var t, p, i, g := I32Bytes(msgType), I16Bytes(0), I32Bytes(smId), I32Bytes(signal);
    var b := t + p + i + g;
    assert b == SignalHeader(msgType, smId, signal);
    I32BigEndian(msgType);
    I32BigEndian(smId);
    I32BigEndian(signal);
    assert Bytes(0, 1) == [] + [0] && Bytes(0, 2) == Bytes(0, 1) + [0];
    assert b[4] == p[0] && b[5] == p[1];
    assert b[0] == t[0] && b[1] == t[1] && b[2] == t[2] && b[3] == t[3];
    assert b[6] == i[0] && b[7] == i[1] && b[8] == i[2] && b[9] == i[3];
    assert b[10] == g[0] && b[11] == g[1] && b[12] == g[2] && b[13] == g[3];
  }

  /** The four bytes at `at`, the high one first, are `v` in two's complement. */
  predicate BigEndian(b: seq<Byte>, at: nat, v: int)
    requires at + 4 <= |b|
  {
    var w: nat, x: nat, y: nat, z: nat := b[at], b[at + 1], b[at + 2], b[at + 3];
    w * 0x100_0000 + x * 0x1_0000 + y * 0x100 + z == if v < 0 then v + 0x1_0000_0000 else v
  }

  lemma I32BigEndian(v: int)
    requires IsI32(v)
    ensures BigEndian(I32Bytes(v), 0, v)
  {
    var u := if v < 0 then v + 0x1_0000_0000 else v;
    var b := I32Bytes(v);
    assert b == Bytes(u / 0x100, 3) + [u % 0x100];
    assert Bytes(u / 0x100, 3) == Bytes(u / 0x100 / 0x100, 2) + [u / 0x100 % 0x100];
    assert Bytes(u / 0x100 / 0x100, 2) == Bytes(u / 0x100 / 0x100 / 0x100, 1) + [u / 0x100 / 0x100 % 0x100];
    assert Bytes(u / 0x100 / 0x100 / 0x100, 1) == [] + [u / 0x100 / 0x100 / 0x100 % 0x100];
  }
}
