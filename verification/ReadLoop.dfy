/** The read loop: what happens to buffers, and what can still happen after a stop. */
module ReadLoop {
  import opened Wrappers
  import opened Reconnect
  import opened ReconnectRuns

  // ----- Steps of other threads -----

  /** Steps other than the reader's leave the reader and its buffers alone. */
  lemma ReaderUntouched(s: Sys, a: Action)
    requires Next(s, a).Some? && !a.OfReader? && !a.StartReader?
    ensures var s' := Next(s, a).value;
            && s'.reader == s.reader && s'.seen.obtained == s.seen.obtained && s'.seen.delivered == s.seen.delivered
            && (s.sock.stop ==> s'.sock.stop)
  {}

  // ----- Buffers -----

  /** The reader holds a buffer it has not delivered. */
  predicate Holds(pc: Reader) {
    pc.CloneStream? || pc.Receiving? || pc.RecvClose? || pc.LoopClose? || pc.Deliver?
  }

  /** Delivery `k` is of buffer `k`, with bytes exactly on success. */
  predicate GoodDelivery(delivered: seq<Delivery>, k: nat)
    requires k < |delivered|
  {
    delivered[k].id == k && (delivered[k].size > 0 <==> delivered[k].status == Success)
  }

  predicate BufferInv(s: Sys) {
    && (forall k :: 0 <= k < |s.seen.delivered| ==> GoodDelivery(s.seen.delivered, k))
    && s.seen.obtained == |s.seen.delivered| + (if Holds(s.reader) then 1 else 0)
    && (Holds(s.reader) ==> s.reader.id == |s.seen.delivered|)
    && (s.reader.LoopClose? ==> s.reader.status != Success)
    && (s.reader.Deliver? ==> (s.reader.size > 0 <==> s.reader.status == Success))
  }

  lemma BufferKept(s: Sys, a: Action)
    requires BufferInv(s) && Next(s, a).Some?
    ensures BufferInv(Next(s, a).value)
  {
    if a.OfReader? {
      BufferKeptByReader(s, a.answer);
    } else if !a.StartReader? {
      ReaderUntouched(s, a);
    }
  }

  lemma BufferKeptByReader(s: Sys, a: Answer)
    requires BufferInv(s) && ReaderStep(s, a).Some?
    ensures BufferInv(ReaderStep(s, a).value)
  {
    var s' := ReaderStep(s, a).value;
    if s.reader.Deliver? {
      forall k | 0 <= k < |s'.seen.delivered|
        ensures GoodDelivery(s'.seen.delivered, k)
      {
        assert k < |s.seen.delivered| ==> GoodDelivery(s.seen.delivered, k);
      }
    } else {
      assert s'.seen.delivered == s.seen.delivered;
    }
  }

  /**
   In every run the buffers obtained are delivered exactly once, in order, except the one the
   reader still holds; a delivered buffer is non-empty exactly when its status is success.
   */
  lemma {:induction false} DeliveredOnce(run: seq<Action>)
    requires After(run).Some?
    ensures BufferInv(After(run).value)
  {
    if run != [] {
      DeliveredOnce(run[..|run| - 1]);
      BufferKept(After(run[..|run| - 1]).value, run[|run| - 1]);
    }
  }

  // ----- After a stop -----

  /** How many buffers a stopped reader can still deliver. */
  function Pending(pc: Reader): nat {
    if Holds(pc) || pc.GetBuffer? then 1 else 0
  }

  lemma StoppedReaderStep(s: Sys, a: Action)
    requires s.sock.stop && Next(s, a).Some? && !a.StartReader?
    ensures var s' := Next(s, a).value;
            && s'.sock.stop
            && |s'.seen.delivered| + Pending(s'.reader) <= |s.seen.delivered| + Pending(s.reader)
  {
    if !a.OfReader? {
      ReaderUntouched(s, a);
    }
  }

  predicate NoStartAfter(run: seq<Action>, i: nat) {
    forall k :: i <= k < |run| ==> !run[k].StartReader? && !run[k].StartReconnect?
  }

  /** Once the stop flag of the reader is set, at most one more buffer is delivered. */
  lemma {:induction false} AtMostOneDelivery(run: seq<Action>, i: nat)
    requires i < |run| && After(run).Some? && run[i].StopReader? && NoStartAfter(run, i)
    ensures At(run, i).Some?
    ensures var s := After(run).value;
            && s.sock.stop
            && |s.seen.delivered| + Pending(s.reader) <= |At(run, i).value.seen.delivered| + 1
    decreases |run|
  {
    var n := |run| - 1;
    StepAt(run, n);
    assert run[..n + 1] == run;
    PrefixHappens(run, i);
    if i < n {
      assert run[..n][..i] == run[..i];
      AtMostOneDelivery(run[..n], i);
      StoppedReaderStep(At(run, n).value, run[n]);
    }
  }

  /** How many opens a stopped reconnect thread can still attempt. */
  function OpensLeft(pc: Reconnector): nat {
    if pc.Pick? || pc.ReopenSeeOpen? || pc.ReopenSeeAuto? || pc.OpenLock? then 1 else 0
  }

  lemma StoppedReconnectorStep(s: Sys, a: Action)
    requires s.rec.stop && Next(s, a).Some? && !a.StartReconnect?
    ensures var s' := Next(s, a).value;
            && s'.rec.stop
            && s'.seen.attempts + OpensLeft(s'.reconnector) <= s.seen.attempts + OpensLeft(s.reconnector)
  {
    if Bystander(a) {
      BystanderStep(s, a);
    }
  }

  /** Once the stop flag of the reconnect thread is set, it attempts at most one more open. */
  lemma {:induction false} AtMostOneOpen(run: seq<Action>, i: nat)
    requires i < |run| && After(run).Some? && run[i].StopReconnect? && NoStartAfter(run, i)
    ensures At(run, i).Some?
    ensures var s := After(run).value;
            && s.rec.stop
            && s.seen.attempts + OpensLeft(s.reconnector) <= At(run, i).value.seen.attempts + 1
    decreases |run|
  {
    var n := |run| - 1;
    StepAt(run, n);
    assert run[..n + 1] == run;
    PrefixHappens(run, i);
    if i < n {
      assert run[..n][..i] == run[..i];
      AtMostOneOpen(run[..n], i);
      StoppedReconnectorStep(At(run, n).value, run[n]);
    }
  }

  /** When the reader is done, its last step was a close. */
  lemma {:induction false} LastStepCloses(run: seq<Action>) returns (k: nat)
    requires After(run).Some? && After(run).value.reader.ReaderDone?
    ensures k < |run| && run[k].OfReader? && (forall n :: k < n < |run| ==> !run[n].OfReader?)
    ensures At(run, k).Some? && At(run, k + 1).Some? && At(run, k).value.reader.FinalClose?
    ensures !At(run, k + 1).value.sock.stream && At(run, k + 1).value.sock.open == NotOpen
    decreases |run|
  {
    var n := |run| - 1;
    StepAt(run, n);
    assert run[..n + 1] == run;
    if run[n].OfReader? {
      k := n;
    } else {
      if !run[n].StartReader? {
        ReaderUntouched(At(run, n).value, run[n]);
      }
      k := LastStepCloses(run[..n]);
      assert run[..n][..k] == run[..k] && run[..n][..k + 1] == run[..k + 1];
    }
  }

  /** Step `a` is the last of a wait, of the reader or of a sender, and returns success. */
  predicate WaitSucceeds(s: Sys, a: Action) {
    || (a.OfReader? && s.reader.Waiting? && WaitStep(s, s.reader.wait, a.answer.flag) == Err(Success))
    || (a.OfSender? && a.i in s.senders && s.senders[a.i].SendWaiting?
        && WaitStep(s, s.senders[a.i].wait, a.answer.flag) == Err(Success))
  }

  /** A wait that returns success saw the socket open, with a stream stored, whoever waits and whoever opens. */
  lemma WaitSawOpen(run: seq<Action>, k: nat)
    requires k < |run| && After(run).Some? && At(run, k).Some? && WaitSucceeds(At(run, k).value, run[k])
    ensures At(run, k).value.sock.open == Open && At(run, k).value.sock.stream
  {
    StreamMatchesState(run[..k]);
  }

  // ----- The bounded socket loops -----

  const SOCKET_MAX_ITERATIONS: nat := 0xFFFF

  /** What one `read` call can return. */
  datatype ReadOutcome = Bytes(n: nat) | WouldBlock | Reset | Interrupted | Failed

  /** The first answer that is not an interruption decides, within the iteration limit. */
  function Decisive(answers: nat -> ReadOutcome, from: nat): (k: nat)
    requires from <= SOCKET_MAX_ITERATIONS
    ensures from <= k <= SOCKET_MAX_ITERATIONS
    ensures forall i :: from <= i < k ==> answers(i).Interrupted?
    ensures k < SOCKET_MAX_ITERATIONS ==> !answers(k).Interrupted?
    decreases SOCKET_MAX_ITERATIONS - from
  {
    if from == SOCKET_MAX_ITERATIONS || !answers(from).Interrupted? then from else Decisive(answers, from + 1)
  }

  /** `socket_recv`: bytes are reported exactly on success. */
  method SocketRecv(answers: nat -> ReadOutcome) returns (status: Status, size: nat)
    ensures ReceiveOutcome(Answer(false, status, size))
    ensures var k := Decisive(answers, 0);
            if k == SOCKET_MAX_ITERATIONS then status == InterruptedTryAgain
            else match answers(k)
              case Bytes(n) => if n > 0 then status == Success && size == n else status == Disconnected
              case WouldBlock => status == NoDataAvailable
              case Reset => status == Disconnected
              case _ => status == OtherError
  {
    for i := 0 to SOCKET_MAX_ITERATIONS
      invariant Decisive(answers, i) == Decisive(answers, 0)
    {
      match answers(i)
      case Bytes(n) =>
        if n > 0 {
          return Success, n;
        }
        return Disconnected, 0;
      case WouldBlock => return NoDataAvailable, 0;
      case Reset => return Disconnected, 0;
      case Interrupted =>
      case Failed => return OtherError, 0;
    }
    return InterruptedTryAgain, 0;
  }

  /** What one `write` call can do with the bytes it is given. */
  datatype WriteOutcome = Wrote(n: nat) | WriteInterrupted | WriteReset | WriteFailed

  /**
   `socket_send`: whatever happens, what went out is a prefix of the data, and it is all of it
   exactly when the result is success.
   */
  method SocketSend(data: seq<int>, writes: (nat, nat) -> WriteOutcome) returns (status: Status, sent: seq<int>)
    requires forall i, left :: writes(i, left).Wrote? ==> writes(i, left).n <= left
    ensures sent <= data
    ensures status == Success <==> sent == data
    ensures status == InterruptedTryAgain || status == Disconnected || status == OtherError ==> sent < data
    ensures status == Success || status == InterruptedTryAgain || status == Disconnected || status == OtherError
  {
    sent := [];
    if data == [] {
      return Success, sent;
    }
    var total := 0;
    for i := 0 to SOCKET_MAX_ITERATIONS
      invariant total <= |data| && sent == data[..total]
    {
      if total >= |data| {
        break;
      }
      match writes(i, |data| - total)
      case Wrote(n) =>
        sent := sent + data[total..total + n];
        total := total + n;
      case WriteInterrupted =>
      case WriteReset => return Disconnected, sent;
      case WriteFailed => return OtherError, sent;
    }
    if total < |data| {
      return InterruptedTryAgain, sent;
    }
    return Success, sent;
  }
}
