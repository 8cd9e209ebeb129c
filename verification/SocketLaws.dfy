/**
 The reconnect protocol seen from what it does to the socket and to its callers: who opens and closes,
 what a result tells, and how long a stopped thread goes on.
 */
module SocketLaws {
  import opened Wrappers
  import opened Reconnect
  import opened ReconnectRuns

  // ----- Who writes what -----

  /** A step that stores an opened stream. */
  predicate Publishes(s: Sys, a: Action) {
    || (a.OfReconnector? && s.reconnector.Publish?)
    || (a.OfOpener? && a.i in s.openers && s.openers[a.i].AtPublish?)
  }

  /** A step that closes the socket for another reason than a failed open. */
  predicate Shuts(s: Sys, a: Action) {
    || a.CloseCall?
    || (a.OfReader? && (s.reader.RecvClose? || s.reader.LoopClose? || s.reader.FinalClose?))
    || (a.OfSender? && a.i in s.senders && s.senders[a.i].SendClose?)
  }

  predicate Closes(s: Sys, a: Action) {
    || Shuts(s, a)
    || (a.OfReconnector? && s.reconnector.Unpublish?)
    || (a.OfOpener? && a.i in s.openers && s.openers[a.i].AtUnpublish?)
  }

  /** A step that begins an open. */
  predicate Locks(s: Sys, a: Action) {
    && s.sock.open == NotOpen
    && ((a.OfReconnector? && s.reconnector.OpenLock?) || (a.OfOpener? && a.i in s.openers && s.openers[a.i].AtLock?))
  }

  /** The socket record after every step, field by field. */
  lemma SocketWritten(s: Sys, a: Action)
    requires Next(s, a).Some?
    ensures var k, k' := s.sock, Next(s, a).value.sock;
            && k'.stream == (Publishes(s, a) || (k.stream && !Closes(s, a)))
            && k'.open == (if Publishes(s, a) then Open else if Closes(s, a) then NotOpen
                           else if Locks(s, a) then Opening else k.open)
            && k'.stop == (a.StopReader? || (k.stop && !a.StartReader?))
            && k'.reopen == if a.SetAutomaticOpen? then a.auto else k.reopen
  {}

  /** A step that asks for a reconnect. */
  predicate Asks(s: Sys, a: Action) {
    (a.OfReader? && s.reader.Request?) || (a.OfSender? && a.i in s.senders && s.senders[a.i].SendRequest?)
  }

  /** A step that ends the work on a request: it succeeded, may not be tried, or someone else is at it. */
  predicate Ends(s: Sys, a: Action) {
    && a.OfReconnector? && s.reconnector.Finish?
    && s.reconnector.result in {Success, AutoConnectDisabled, AnotherThreadOpening}
  }

  /** The reconnect record after every step, field by field. */
  lemma SharedWritten(s: Sys, a: Action)
    requires Next(s, a).Some?
    ensures var r, r' := s.rec, Next(s, a).value.rec;
            && r'.stop == (a.StopReconnect? || (r.stop && !a.StartReconnect?))
            && r'.state == (if a.StopReconnect? || Ends(s, a) then NotReconnecting
                            else if Asks(s, a) && r.state == NotReconnecting then RequestReconnect
                            else if a.OfReconnector? && s.reconnector.Pick? && r.state == RequestReconnect
                            then ReconnectInProgress else r.state)
  {}

  // ----- The stream -----

  predicate PublishedAt(run: seq<Action>, k: nat)
    requires k < |run|
  {
    At(run, k).Some? && Publishes(At(run, k).value, run[k])
  }

  predicate ClosedAt(run: seq<Action>, k: nat)
    requires k < |run|
  {
    At(run, k).Some? && Closes(At(run, k).value, run[k])
  }

  /** Step `k` stored a stream and nothing has closed the socket between then and step `n`. */
  ghost predicate OpenSince(run: seq<Action>, k: nat, n: nat)
    requires n <= |run|
  {
    k < n && PublishedAt(run, k) && forall j :: k < j < n ==> !ClosedAt(run, j)
  }

  /** A stream is stored exactly when an open has published one and nothing has closed it since. */
  lemma {:induction false} StreamIff(run: seq<Action>, n: nat)
    requires After(run).Some? && n <= |run|
    ensures At(run, n).Some? && (At(run, n).value.sock.stream <==> exists k: nat :: OpenSince(run, k, n))
    decreases n
  {
    PrefixHappens(run, n);
    if n > 0 {
      var m := n - 1;
      StreamIff(run, m);
      StepAt(run, m);
      var s := At(run, m).value;
      SocketWritten(s, run[m]);
      if Publishes(s, run[m]) {
        assert OpenSince(run, m, n);
      } else if At(run, n).value.sock.stream {
        var k: nat :| OpenSince(run, k, m);
        assert OpenSince(run, k, n);
      }
      if k: nat :| OpenSince(run, k, n) {
        assert k < m ==> OpenSince(run, k, m) && !ClosedAt(run, m);
      }
    }
  }

  // ----- One open at a time -----

  predicate OpenerInFlight(s: Sys, i: nat) {
    i in s.openers && (s.openers[i].AtProtocol? || s.openers[i].AtPublish? || s.openers[i].AtUnpublish?)
  }

  /** At most one open is in flight, and while one is, the state says so. */
  ghost predicate OneOpen(s: Sys) {
    && (InFlight(s.reconnector) ==> s.sock.open == Opening && forall i :: !OpenerInFlight(s, i))
    && (forall i :: OpenerInFlight(s, i) ==> s.sock.open == Opening)
    && (forall i, j :: OpenerInFlight(s, i) && OpenerInFlight(s, j) ==> i == j)
  }

  /** No one closes the socket while an open is in flight, except the open itself when it fails. */
  ghost predicate Undisturbed(run: seq<Action>) {
    forall k :: 0 <= k < |run| ==> UndisturbedAt(run, k)
  }

  predicate UndisturbedAt(run: seq<Action>, k: nat)
    requires k < |run|
  {
    At(run, k).Some? && At(run, k).value.sock.open == Opening ==> !Shuts(At(run, k).value, run[k])
  }

  lemma OpenerKept(s: Sys, i: nat, ok: bool)
    requires OneOpen(s) && OpenerStep(s, i, ok).Some?
    ensures OneOpen(OpenerStep(s, i, ok).value)
  {
    var s' := OpenerStep(s, i, ok).value;
    assert forall j: nat :: j != i ==> OpenerInFlight(s', j) == OpenerInFlight(s, j);
    if OpenerInFlight(s, i) {
      assert forall j: nat :: j != i ==> !OpenerInFlight(s, j);
    } else if OpenerInFlight(s', i) {
      assert s.sock.open == NotOpen;
      assert forall j: nat :: !OpenerInFlight(s, j);
    } else {
      assert s'.sock == s.sock;
    }
  }

  lemma ReconnectorKept(s: Sys, ok: bool)
    requires OneOpen(s) && ReconnectorStep(s, ok).Some?
    ensures OneOpen(ReconnectorStep(s, ok).value)
  {
    var s' := ReconnectorStep(s, ok).value;
    assert forall i: nat :: OpenerInFlight(s', i) == OpenerInFlight(s, i);
    if s.sock.open != Opening {
      assert forall i: nat :: !OpenerInFlight(s, i);
    }
  }

  lemma OneOpenKept(s: Sys, a: Action)
    requires OneOpen(s) && Next(s, a).Some? && (s.sock.open == Opening ==> !Shuts(s, a))
    ensures OneOpen(Next(s, a).value)
  {
    if a.OfReconnector? {
      ReconnectorKept(s, a.ok);
    } else if a.OfOpener? {
      OpenerKept(s, a.i, a.ok);
    } else {
      var s' := Next(s, a).value;
      OpensUntouched(s, a);
      SocketWritten(s, a);
      assert forall i: nat :: OpenerInFlight(s', i) == OpenerInFlight(s, i);
    }
  }

  lemma OpensUntouched(s: Sys, a: Action)
    requires !a.OfReconnector? && !a.OfOpener? && Next(s, a).Some?
    ensures Next(s, a).value.openers == s.openers
    ensures InFlight(Next(s, a).value.reconnector) == InFlight(s.reconnector)
  {
    if Bystander(a) {
      BystanderStep(s, a);
    }
  }

  /** Whoever opens, as long as no one closes in between there is never more than one open in flight. */
  lemma {:induction false} ExclusiveOpen(run: seq<Action>)
    requires After(run).Some? && Undisturbed(run)
    ensures OneOpen(After(run).value)
  {
    if run != [] {
      var n := |run| - 1;
      StepAt(run, n);
      assert run[..n + 1] == run && run[..n][..n] == run[..n];
      forall k | 0 <= k < n
        ensures UndisturbedAt(run[..n], k)
      {
        assert UndisturbedAt(run, k);
        assert run[..n][..k] == run[..k];
      }
      ExclusiveOpen(run[..n]);
      assert UndisturbedAt(run, n);
      OneOpenKept(At(run, n).value, run[n]);
    }
  }

  /** Two callers of `open` and a close between them. */
  const INTERRUPTED: seq<Action> :=
    [OfOpener(0, true)] + [OfOpener(0, true)] + [CloseCall] + [OfOpener(1, true)] + [OfOpener(1, true)]

  /** A close in between lets a second open begin. */
  lemma TwoOpensInFlight()
    ensures After(INTERRUPTED).Some? && !OneOpen(After(INTERRUPTED).value)
  {
    OneMore([], OfOpener(0, true));
    var r1 := [OfOpener(0, true)];
    assert [] + r1 == r1;
    OneMore(r1, OfOpener(0, true));
    var r2 := r1 + [OfOpener(0, true)];
    OneMore(r2, CloseCall);
    var r3 := r2 + [CloseCall];
    OneMore(r3, OfOpener(1, true));
    var r4 := r3 + [OfOpener(1, true)];
    OneMore(r4, OfOpener(1, true));
    var s := After(INTERRUPTED).value;
    assert OpenerInFlight(s, 0) && OpenerInFlight(s, 1);
  }

  // ----- What a send tells its caller -----

  /** Step `k` is one of sender `i`, at `pc`. */
  predicate SenderAt(run: seq<Action>, k: nat, i: nat, pc: Sender) {
    && k < |run| && At(run, k).Some? && run[k].OfSender? && run[k].i == i
    && i in At(run, k).value.senders && At(run, k).value.senders[i] == pc
  }

  /** A step of a sender at `pc` that returns `status`. */
  predicate Returns(s: Sys, pc: Sender, a: Answer, status: Status) {
    match pc
    case Sending => a.status == status != Disconnected
    case SendClose => status == Disconnected
    case SecondClone => !(s.sock.stream && a.flag) && status == Disconnected
    case SendWaiting(w) =>
      || (w.CheckAuto? && !s.sock.reopen && status == AutoConnectDisabled)
      || (w.RecheckAuto? && status == if s.sock.reopen then Disconnected else AutoConnectDisabled)
    case _ => false
  }

  /** Step `k` of sender `i` is where `status` comes from. */
  ghost predicate Tells(run: seq<Action>, k: nat, i: nat, status: Status) {
    && k < |run| && At(run, k).Some? && run[k].OfSender? && run[k].i == i
    && i in At(run, k).value.senders
    && Returns(At(run, k).value, At(run, k).value.senders[i], run[k].answer, status)
  }

  /** Step `k` of sender `i` found a stream and cloned it. */
  ghost predicate Cloned(run: seq<Action>, k: nat, i: nat) {
    && (SenderAt(run, k, i, FirstClone) || SenderAt(run, k, i, SecondClone))
    && At(run, k).value.sock.stream && run[k].answer.flag
  }

  /** Step `k` of sender `i` wrote and found the peer gone. */
  ghost predicate PeerLost(run: seq<Action>, k: nat, i: nat) {
    SenderAt(run, k, i, Sending) && run[k].answer.status == Disconnected
  }

  lemma SenderGives(s: Sys, i: nat, a: Answer)
    requires SenderStep(s, i, a).Some?
    ensures var s' := SenderStep(s, i, a).value;
            && i in s'.senders
            && (s'.senders[i].Sent? ==> i in s.senders && Returns(s, s.senders[i], a, s'.senders[i].status))
            && (s'.senders[i].Sending? ==>
                  i in s.senders && (s.senders[i].FirstClone? || s.senders[i].SecondClone?) && s.sock.stream && a.flag)
            && (s'.senders[i].SendClose? ==> i in s.senders && s.senders[i].Sending? && a.status == Disconnected)
  {}

  /** What a step of a sender tells about where it has come to. */
  lemma SenderMoves(run: seq<Action>, n: nat, i: nat)
    requires n < |run| && After(run).Some? && run[n].OfSender? && run[n].i == i
    ensures At(run, n + 1).Some? && i in At(run, n + 1).value.senders
    ensures var pc := At(run, n + 1).value.senders[i];
            && (pc.Sent? ==> Tells(run, n, i, pc.status))
            && (pc.Sending? ==> Cloned(run, n, i))
            && (pc.SendClose? ==> PeerLost(run, n, i))
  {
    StepAt(run, n);
    SenderGives(At(run, n).value, i, run[n].answer);
  }

  lemma SendersUntouched(s: Sys, a: Action, i: nat)
    requires Next(s, a).Some? && !(a.OfSender? && a.i == i)
    ensures var s' := Next(s, a).value;
            (i in s'.senders <==> i in s.senders) && (i in s.senders ==> s'.senders[i] == s.senders[i])
  {}

  /** What is known of sender `i` before step `n`. */
  ghost predicate Accounted(run: seq<Action>, n: nat, i: nat)
    requires n <= |run|
  {
    At(run, n).Some?
    && var senders := At(run, n).value.senders;
       i in senders ==>
         && (senders[i].Sent? ==> exists k: nat :: k < n && Tells(run, k, i, senders[i].status))
         && (senders[i].Sending? ==> exists k: nat :: k < n && Cloned(run, k, i))
         && (senders[i].SendClose? ==> exists k: nat :: k < n && PeerLost(run, k, i))
  }

  /**
   A send that returns tells what its last step saw: the transport's own answer; or that the peer is gone,
   after the socket was closed for it; or that automatic open was off, or the socket still not open, when
   the wait for a reconnect ended.  And it writes only on a stream that was stored when it looked.
   */
  lemma {:induction false} SendTells(run: seq<Action>, n: nat, i: nat)
    requires After(run).Some? && n <= |run|
    ensures Accounted(run, n, i)
    decreases n
  {
    PrefixHappens(run, n);
    if n == 0 {
      assert run[..0] == [];
    } else {
      var m := n - 1;
      SendTells(run, m, i);
      StepAt(run, m);
      if run[m].OfSender? && run[m].i == i {
        SenderMoves(run, m, i);
      } else {
        SendersUntouched(At(run, m).value, run[m], i);
      }
    }
  }

  // ----- What a delivery tells -----

  /** A receive that brought bytes, was interrupted or found no data leaves the socket open. */
  predicate Quiet(status: Status) {
    status == Success || status == InterruptedTryAgain || status == NoDataAvailable
  }

  /** A step of the reader at `pc` that leads to the delivery `d`: the receive itself, or the close after a failure. */
  predicate Yields(pc: Reader, a: Answer, d: Delivery) {
    if Quiet(d.status) then pc == Receiving(d.id) && a.status == d.status && a.size == d.size
    else pc == LoopClose(d.id, d.status) && d.size == 0
  }

  ghost predicate Brings(run: seq<Action>, k: nat, d: Delivery) {
    k < |run| && At(run, k).Some? && run[k].OfReader? && Yields(At(run, k).value.reader, run[k].answer, d)
  }

  ghost predicate Brought(run: seq<Action>, n: nat, d: Delivery) {
    exists k: nat :: k < n && Brings(run, k, d)
  }

  ghost predicate AllBrought(run: seq<Action>, n: nat)
    requires n <= |run|
  {
    At(run, n).Some?
    && var s := At(run, n).value;
       && (forall q :: 0 <= q < |s.seen.delivered| ==> Brought(run, n, s.seen.delivered[q]))
       && (s.reader.Deliver? ==> Brought(run, n, Delivery(s.reader.id, s.reader.status, s.reader.size)))
       && (s.reader.LoopClose? ==> !Quiet(s.reader.status))
  }

  lemma ReaderGives(s: Sys, a: Answer)
    requires ReaderStep(s, a).Some? && (s.reader.LoopClose? ==> !Quiet(s.reader.status))
    ensures var pc := ReaderStep(s, a).value.reader;
            && (pc.Deliver? ==> Yields(s.reader, a, Delivery(pc.id, pc.status, pc.size)))
            && (pc.LoopClose? ==> !Quiet(pc.status))
  {}

  lemma ReaderDelivers(s: Sys, a: Answer)
    requires ReaderStep(s, a).Some?
    ensures ReaderStep(s, a).value.seen.delivered
            == if s.reader.Deliver? then s.seen.delivered + [Delivery(s.reader.id, s.reader.status, s.reader.size)]
               else s.seen.delivered
  {}

  lemma ReaderIdle(s: Sys, a: Action)
    requires Next(s, a).Some? && !a.OfReader?
    ensures var s' := Next(s, a).value;
            && s'.seen.delivered == s.seen.delivered
            && s'.reader == if a.StartReader? then TopOpened else s.reader
  {}

  /**
   What is delivered is what a receive brought; a failure is delivered only after the reader has closed
   the socket, and a receive that was only interrupted or found nothing does not close it.
   */
  lemma {:induction false} DeliveryTells(run: seq<Action>, n: nat)
    requires After(run).Some? && n <= |run|
    ensures AllBrought(run, n)
    decreases n
  {
    PrefixHappens(run, n);
    if n == 0 {
      assert run[..0] == [];
    } else {
      var m := n - 1;
      DeliveryTells(run, m);
      StepAt(run, m);
      BroughtKept(run, m, n);
      if run[m].OfReader? {
        ReaderGives(At(run, m).value, run[m].answer);
        ReaderDelivers(At(run, m).value, run[m].answer);
        var pc := At(run, n).value.reader;
        assert pc.Deliver? ==> Brings(run, m, Delivery(pc.id, pc.status, pc.size));
      } else {
        ReaderIdle(At(run, m).value, run[m]);
      }
    }
  }

  lemma BroughtKept(run: seq<Action>, m: nat, n: nat)
    requires m <= n
    ensures forall d :: Brought(run, m, d) ==> Brought(run, n, d)
  {
    forall d | Brought(run, m, d)
      ensures Brought(run, n, d)
    {
      var k: nat :| k < m && Brings(run, k, d);
    }
  }

  // ----- When the reader asks and when it gives up -----

  /** The reader is about to find the socket not open, */
  predicate SeesClosed(s: Sys) { s.reader.TopOpened? && s.sock.open != Open }

  /** itself not stopped, */
  predicate SeesRunning(s: Sys) { s.reader.TopRunning? && !s.sock.stop }

  /** or itself stopped at the end of a turn, or automatic open off during a wait. */
  predicate SeesEnd(s: Sys) {
    || (s.reader.Bottom? && s.sock.stop)
    || (s.reader.Waiting? && (s.reader.wait.CheckAuto? || s.reader.wait.RecheckAuto?) && !s.sock.reopen)
  }

  predicate ReaderStepAt(run: seq<Action>, k: nat) {
    k < |run| && At(run, k).Some? && run[k].OfReader?
  }

  predicate FoundClosed(run: seq<Action>, k: nat) { ReaderStepAt(run, k) && SeesClosed(At(run, k).value) }

  predicate FoundRunning(run: seq<Action>, k: nat) { ReaderStepAt(run, k) && SeesRunning(At(run, k).value) }

  predicate FoundEnd(run: seq<Action>, k: nat) { ReaderStepAt(run, k) && SeesEnd(At(run, k).value) }

  ghost predicate Reasoned(run: seq<Action>, n: nat)
    requires n <= |run|
  {
    At(run, n).Some?
    && var pc := At(run, n).value.reader;
       && (pc.TopRunning? || pc.Request? ==> exists k: nat :: k < n && FoundClosed(run, k))
       && (pc.Request? ==> exists k: nat :: k < n && FoundRunning(run, k))
       && (pc.FinalClose? || pc.ReaderDone? ==> exists k: nat :: k < n && FoundEnd(run, k))
  }

  lemma ReaderReasons(s: Sys, a: Answer)
    requires ReaderStep(s, a).Some?
    ensures var pc := ReaderStep(s, a).value.reader;
            && (pc.TopRunning? ==> SeesClosed(s)) && (pc.Request? ==> SeesRunning(s))
            && (pc.FinalClose? ==> SeesEnd(s)) && (pc.ReaderDone? ==> s.reader.FinalClose?)
  {}

  /**
   The reader asks for a reconnect only after finding the socket not open and itself not stopped, and ends
   only after finding itself stopped, or automatic open off while it waited.
   */
  lemma {:induction false} ReaderTells(run: seq<Action>, n: nat)
    requires After(run).Some? && n <= |run|
    ensures Reasoned(run, n)
    decreases n
  {
    PrefixHappens(run, n);
    if n == 0 {
      assert run[..0] == [];
    } else {
      var m := n - 1;
      ReaderTells(run, m);
      StepAt(run, m);
      if run[m].OfReader? {
        ReaderReasons(At(run, m).value, run[m].answer);
        assert SeesClosed(At(run, m).value) ==> FoundClosed(run, m);
        assert SeesRunning(At(run, m).value) ==> FoundRunning(run, m);
        assert SeesEnd(At(run, m).value) ==> FoundEnd(run, m);
      } else {
        ReaderIdle(At(run, m).value, run[m]);
      }
    }
  }

  // ----- How long a stopped thread goes on -----

  function WaitRank(w: Wait): nat {
    match w
    case CheckAuto => 3
    case Poll => 2
    case SeeOpen => 1
    case RecheckAuto => 0
  }

  /** How many steps a stopped reader has left, not counting polls. */
  function ReaderRank(pc: Reader): nat {
    match pc
    case ReaderNotStarted => 0
    case ReaderDone => 0
    case FinalClose => 1
    case Bottom => 2
    case Deliver(_, _, _) => 3
    case LoopClose(_, _) => 4
    case RecvClose(_) => 5
    case Receiving(_) => 6
    case CloneStream(_) => 7
    case GetBuffer => 8
    case ReadRunning => 9
    case ReadOpened => 10
    case Waiting(w) => 11 + WaitRank(w)
    case Request => 15
    case TopRunning => 16
    case TopOpened => 17
  }

  /** How many steps a sender has left, not counting polls. */
  function SenderRank(pc: Sender): nat {
    match pc
    case Sent(_) => 0
    case SendClose => 1
    case Sending => 2
    case SecondClone => 3
    case SendWaiting(w) => 4 + WaitRank(w)
    case SendRequest => 8
    case FirstClone => 9
  }

  /** A poll that goes on: the timeout has not passed, a reconnect is pending and its thread runs. */
  predicate Lingers(s: Sys, timeout: bool) {
    !timeout && s.rec.state != NotReconnecting && !s.rec.stop
  }

  /** Step `k` is one of the reader's that counts. */
  predicate ReaderWorks(run: seq<Action>, k: nat)
    requires k < |run|
  {
    && At(run, k).Some? && run[k].OfReader?
    && !(At(run, k).value.reader == Waiting(Poll) && Lingers(At(run, k).value, run[k].answer.flag))
  }

  /** The steps of the reader from `i` to `n` that count. */
  function ReaderWork(run: seq<Action>, i: nat, n: nat): nat
    requires i <= n <= |run|
    decreases n
  {
    if i == n then 0 else ReaderWork(run, i, n - 1) + if ReaderWorks(run, n - 1) then 1 else 0
  }

  lemma StoppedReaderDescends(s: Sys, a: Answer)
    requires s.sock.stop && ReaderStep(s, a).Some?
    ensures var s' := ReaderStep(s, a).value;
            if s.reader == Waiting(Poll) && Lingers(s, a.flag) then s'.reader == s.reader
            else ReaderRank(s'.reader) < ReaderRank(s.reader)
  {}

  /** Once the reader is told to stop it has at most 17 steps left, not counting polls that wait for a reconnect. */
  lemma {:induction false} StopEndsReader(run: seq<Action>, i: nat, n: nat)
    requires i <= n <= |run| && After(run).Some? && At(run, i).Some? && At(run, i).value.sock.stop
    requires forall k :: i <= k < n ==> !run[k].StartReader?
    ensures At(run, n).Some? && At(run, n).value.sock.stop
    ensures ReaderWork(run, i, n) + ReaderRank(At(run, n).value.reader) <= ReaderRank(At(run, i).value.reader) <= 17
    decreases n
  {
    if i < n {
      var m := n - 1;
      StopEndsReader(run, i, m);
      StepAt(run, m);
      SocketWritten(At(run, m).value, run[m]);
      if run[m].OfReader? {
        StoppedReaderDescends(At(run, m).value, run[m].answer);
      } else {
        ReaderIdle(At(run, m).value, run[m]);
      }
    }
  }

  predicate SenderWorks(run: seq<Action>, k: nat, i: nat)
    requires k < |run|
  {
    && At(run, k).Some? && run[k].OfSender? && run[k].i == i && i in At(run, k).value.senders
    && !(At(run, k).value.senders[i] == SendWaiting(Poll) && Lingers(At(run, k).value, run[k].answer.flag))
  }

  function SenderWork(run: seq<Action>, n: nat, i: nat): nat
    requires n <= |run|
    decreases n
  {
    if n == 0 then 0 else SenderWork(run, n - 1, i) + if SenderWorks(run, n - 1, i) then 1 else 0
  }

  lemma SenderDescends(s: Sys, i: nat, a: Answer)
    requires i in s.senders && SenderStep(s, i, a).Some?
    ensures var s' := SenderStep(s, i, a).value;
            && i in s'.senders
            && if s.senders[i] == SendWaiting(Poll) && Lingers(s, a.flag) then s'.senders[i] == s.senders[i]
               else SenderRank(s'.senders[i]) < SenderRank(s.senders[i])
  {}

  /**
   A send takes at most 9 steps, not counting polls that wait for a reconnect; none does once the
   reconnect thread is stopped.
   */
  lemma {:induction false} SendEnds(run: seq<Action>, n: nat, i: nat)
    requires n <= |run| && After(run).Some?
    ensures At(run, n).Some?
    ensures var senders := At(run, n).value.senders;
            SenderWork(run, n, i) + (if i in senders then SenderRank(senders[i]) else 9) <= 9
    decreases n
  {
    PrefixHappens(run, n);
    if n > 0 {
      var m := n - 1;
      SendEnds(run, m, i);
      StepAt(run, m);
      if run[m].OfSender? && run[m].i == i {
        if i in At(run, m).value.senders {
          SenderDescends(At(run, m).value, i, run[m].answer);
        }
      } else {
        SendersUntouched(At(run, m).value, run[m], i);
      }
    }
  }
}
