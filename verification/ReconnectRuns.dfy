/** What holds in every run of the reconnect protocol. */
module ReconnectRuns {
  import opened Wrappers
  import opened Reconnect

  /** The state before step `k` of a run. */
  function At(run: seq<Action>, k: nat): Option<Sys>
    requires k <= |run|
  {
    After(run[..k])
  }

  lemma {:induction false} PrefixHappens(run: seq<Action>, k: nat)
    requires k <= |run| && After(run).Some?
    ensures At(run, k).Some?
    decreases |run|
  {
    if k < |run| {
      PrefixHappens(run[..|run| - 1], k);
      assert run[..|run| - 1][..k] == run[..k];
    } else {
      assert run[..k] == run;
    }
  }

  lemma StepAt(run: seq<Action>, k: nat)
    requires k < |run| && After(run).Some?
    ensures At(run, k).Some? && At(run, k + 1).Some?
    ensures Next(At(run, k).value, run[k]) == At(run, k + 1)
  {
    PrefixHappens(run, k);
    PrefixHappens(run, k + 1);
    assert run[..k + 1][..k] == run[..k];
  }

  // ----- What a step can do -----

  /** The actions that touch neither the reconnect thread nor an open. */
  predicate Bystander(a: Action) {
    !a.StartReconnect? && !a.OfReconnector? && !a.OfOpener? && !a.StopReconnect?
  }

  /** They leave the socket as it is or close it, and at most file a request. */
  predicate BystanderEffect(s: Sys, s': Sys) {
    && s'.reconnector == s.reconnector && s'.openers == s.openers && s'.seen.attempts == s.seen.attempts
    && ((s'.sock.stream == s.sock.stream && s'.sock.open == s.sock.open) || (!s'.sock.stream && s'.sock.open == NotOpen))
    && (s'.rec == s.rec || s'.rec == Requested(s.rec))
  }

  lemma ReaderEffect(s: Sys, a: Answer)
    requires ReaderStep(s, a).Some?
    ensures BystanderEffect(s, ReaderStep(s, a).value)
  {
    match s.reader
    case Waiting(w) =>
    case _ =>
  }

  lemma SenderEffect(s: Sys, i: nat, a: Answer)
    requires SenderStep(s, i, a).Some?
    ensures BystanderEffect(s, SenderStep(s, i, a).value)
  {}

  lemma BystanderStep(s: Sys, a: Action)
    requires Bystander(a) && Next(s, a).Some?
    ensures BystanderEffect(s, Next(s, a).value)
  {
    match a
    case OfReader(answer) => ReaderEffect(s, answer);
    case OfSender(i, answer) => SenderEffect(s, i, answer);
    case _ =>
  }

  // ----- The socket -----

  /** A stream is stored exactly when the state is `Open`. */
  predicate StreamInv(s: Sys) { s.sock.stream <==> s.sock.open == Open }

  lemma StreamKept(s: Sys, a: Action)
    requires StreamInv(s) && Next(s, a).Some?
    ensures StreamInv(Next(s, a).value)
  {
    if Bystander(a) {
      BystanderStep(s, a);
    }
  }

  /**
   In every interleaving, whoever opens and closes, a stream is stored exactly when the state is
   `Open`; so an open that finds `NotOpen` never finds a stream, and its assert never fires.
   */
  lemma {:induction false} StreamMatchesState(run: seq<Action>)
    requires After(run).Some?
    ensures StreamInv(After(run).value)
  {
    if run != [] {
      StreamMatchesState(run[..|run| - 1]);
      StreamKept(After(run[..|run| - 1]).value, run[|run| - 1]);
    }
  }

  /** No one but the reconnect thread calls `open`. */
  predicate OnlyReconnectorOpens(run: seq<Action>) {
    forall a :: a in run ==> !a.OfOpener?
  }

  /** An open is in flight exactly while the reconnect thread is inside one. */
  predicate InFlight(pc: Reconnector) { pc.Protocol? || pc.Publish? || pc.Unpublish? }

  predicate SoleOpenerInv(s: Sys) {
    && s.openers == map[]
    && (s.sock.open == Opening ==> InFlight(s.reconnector))
    && ((s.reconnector.ReopenSeeAuto? || s.reconnector.OpenLock?) ==> s.sock.open == NotOpen)
    && s.reconnector != Finish(AnotherThreadOpening)
  }

  lemma SoleOpenerKept(s: Sys, a: Action)
    requires SoleOpenerInv(s) && !a.OfOpener? && Next(s, a).Some?
    ensures SoleOpenerInv(Next(s, a).value)
  {
    if Bystander(a) {
      BystanderStep(s, a);
    }
  }

  /**
   With the reconnect thread as the only opener, its `open` never returns `AnotherThreadOpening`
   and the state is `Opening` only while that thread has an open in flight.
   */
  lemma {:induction false} SoleOpener(run: seq<Action>)
    requires After(run).Some? && OnlyReconnectorOpens(run)
    ensures SoleOpenerInv(After(run).value)
  {
    if run != [] {
      SubRun(run, |run| - 1);
      SoleOpener(run[..|run| - 1]);
      assert run[|run| - 1] in run;
      SoleOpenerKept(After(run[..|run| - 1]).value, run[|run| - 1]);
    }
  }

  // ----- Reconnect requests -----

  predicate NoStop(run: seq<Action>) {
    forall a :: a in run ==> !a.StopReconnect?
  }

  /** Between picking a request up and finishing with it. */
  predicate Serving(pc: Reconnector) {
    !pc.NotStarted? && !pc.CheckRunning? && !pc.Pick? && !pc.Done?
  }

  predicate ServingInv(s: Sys) { Serving(s.reconnector) ==> s.rec.state == ReconnectInProgress }

  lemma ServingKept(s: Sys, a: Action)
    requires ServingInv(s) && !a.StopReconnect? && Next(s, a).Some?
    ensures ServingInv(Next(s, a).value)
  {
    if Bystander(a) {
      BystanderStep(s, a);
    }
  }

  /** In a run without stop a request is in progress all the while it is being served. */
  lemma {:induction false} ServedInProgress(run: seq<Action>)
    requires After(run).Some? && NoStop(run)
    ensures ServingInv(After(run).value)
  {
    if run != [] {
      SubRun(run, |run| - 1);
      ServedInProgress(run[..|run| - 1]);
      assert run[|run| - 1] in run;
      ServingKept(After(run[..|run| - 1]).value, run[|run| - 1]);
    }
  }

  /** Step `k` picks a request up. */
  predicate Picks(run: seq<Action>, k: nat)
    requires k < |run|
  {
    && At(run, k).Some? && run[k].OfReconnector? && At(run, k).value.reconnector.Pick?
    && At(run, k).value.rec.state != NotReconnecting
  }

  /** Step `k` saw the socket open, published an open socket, or found automatic open disabled. */
  predicate Settles(run: seq<Action>, k: nat)
    requires k < |run|
  {
    && At(run, k).Some? && run[k].OfReconnector?
    && var s := At(run, k).value;
       || (s.reconnector.ReopenSeeOpen? && s.sock.open == Open)
       || s.reconnector.Publish?
       || (s.reconnector.ReopenSeeAuto? && !s.sock.reopen)
  }

  /** Everything in `(i, k]` is one pass of serving a request picked up at `i`. */
  predicate Served(run: seq<Action>, i: nat, k: nat)
    requires i < k <= |run|
  {
    && Picks(run, i)
    && forall n :: i < n <= k ==> ServingAt(run, n)
  }

  predicate ServingAt(run: seq<Action>, n: nat)
    requires n <= |run|
  {
    At(run, n).Some? && Serving(At(run, n).value.reconnector)
  }

  /** Serving starts by picking a request up. */
  lemma PickStep(s: Sys, a: Action)
    requires Next(s, a).Some? && !Serving(s.reconnector) && Serving(Next(s, a).value.reconnector)
    ensures a.OfReconnector? && s.reconnector.Pick? && s.rec.state != NotReconnecting
  {
    if Bystander(a) {
      BystanderStep(s, a);
    }
  }

  /** Settling is one of the three observations. */
  lemma SettleStep(s: Sys, a: Action)
    requires Next(s, a).Some? && !Settled(s.reconnector) && Settled(Next(s, a).value.reconnector)
    ensures a.OfReconnector?
    ensures || (s.reconnector.ReopenSeeOpen? && s.sock.open == Open)
            || s.reconnector.Publish?
            || (s.reconnector.ReopenSeeAuto? && !s.sock.reopen)
  {
    if Bystander(a) {
      BystanderStep(s, a);
    }
  }

  /** Only the reconnect thread drops a pending request, when it is done with it. */
  lemma DropStep(s: Sys, a: Action)
    requires Next(s, a).Some? && !a.StopReconnect?
    requires s.rec.state != NotReconnecting && Next(s, a).value.rec.state == NotReconnecting
    ensures a.OfReconnector? && s.reconnector.Finish? && (Settled(s.reconnector) || s.reconnector.result == AnotherThreadOpening)
  {
    if Bystander(a) {
      BystanderStep(s, a);
    }
  }

  /** While the thread serves, the request it serves was picked up before. */
  lemma {:induction false} PickedBefore(run: seq<Action>, k: nat) returns (i: nat)
    requires k <= |run| && After(run).Some? && At(run, k).Some? && Serving(At(run, k).value.reconnector)
    ensures i < k && Served(run, i, k)
    decreases k
  {
    assert run[..0] == [];
    if k > 0 {
      StepAt(run, k - 1);
      var s := At(run, k - 1).value;
      if Serving(s.reconnector) {
        i := PickedBefore(run, k - 1);
        ServedOneMore(run, i, k - 1);
      } else {
        PickStep(s, run[k - 1]);
        i := k - 1;
        assert ServingAt(run, k);
      }
    }
  }

  lemma ServedOneMore(run: seq<Action>, i: nat, k: nat)
    requires i < k < |run| && Served(run, i, k) && ServingAt(run, k + 1)
    ensures Served(run, i, k + 1)
  {
  }

  /** The thread has settled the request it is serving. */
  predicate Settled(pc: Reconnector) {
    pc.Connected? || pc == Finish(Success) || pc == Finish(AutoConnectDisabled)
  }

  lemma {:induction false} SettledBefore(run: seq<Action>, i: nat, k: nat) returns (j: nat)
    requires i < k <= |run| && After(run).Some? && Served(run, i, k)
    requires At(run, k).Some? && Settled(At(run, k).value.reconnector)
    ensures i < j < k && Settles(run, j)
    decreases k
  {
    StepAt(run, k - 1);
    var s := At(run, k - 1).value;
    if Settled(s.reconnector) {
      j := SettledBefore(run, i, k - 1);
    } else {
      SettleStep(s, run[k - 1]);
      j := k - 1;
    }
  }

  /** Step `k` finds another caller inside `open`, or already done with it, when the thread comes to open itself. */
  predicate FindsOther(run: seq<Action>, k: nat)
    requires k < |run|
  {
    && At(run, k).Some? && run[k].OfReconnector?
    && At(run, k).value.reconnector.OpenLock? && At(run, k).value.sock.open != NotOpen
  }

  lemma OtherStep(s: Sys, a: Action)
    requires Next(s, a).Some? && s.reconnector != Finish(AnotherThreadOpening)
    requires Next(s, a).value.reconnector == Finish(AnotherThreadOpening)
    ensures a.OfReconnector? && s.reconnector.OpenLock? && s.sock.open != NotOpen
  {
    if Bystander(a) {
      BystanderStep(s, a);
    }
  }

  lemma {:induction false} OtherBefore(run: seq<Action>, i: nat, k: nat) returns (j: nat)
    requires i < k <= |run| && After(run).Some? && Served(run, i, k)
    requires At(run, k).Some? && At(run, k).value.reconnector == Finish(AnotherThreadOpening)
    ensures i < j < k && FindsOther(run, j)
    decreases k
  {
    StepAt(run, k - 1);
    var s := At(run, k - 1).value;
    if s.reconnector == Finish(AnotherThreadOpening) {
      j := OtherBefore(run, i, k - 1);
    } else {
      OtherStep(s, run[k - 1]);
      j := k - 1;
    }
  }

  /** Step `k` drops a pending request. */
  predicate Drops(run: seq<Action>, k: nat)
    requires k < |run|
  {
    && At(run, k).Some? && At(run, k + 1).Some?
    && At(run, k).value.rec.state != NotReconnecting && At(run, k + 1).value.rec.state == NotReconnecting
  }

  /** Some step of the pass from `i` to `k` settled the request. */
  predicate SettlesWithin(run: seq<Action>, i: nat, k: nat)
    requires k <= |run|
  {
    exists j :: i < j < k && Settles(run, j)
  }

  /** Some step of the pass from `i` to `k` found another caller opening. */
  predicate FindsOtherWithin(run: seq<Action>, i: nat, k: nat)
    requires k <= |run|
  {
    exists j :: i < j < k && FindsOther(run, j)
  }

  /** What the thread has found at `pc` it still holds at `later`. */
  predicate Holds(pc: Reconnector, later: Reconnector) {
    && (Settled(pc) ==> Settled(later))
    && (pc == Finish(AnotherThreadOpening) ==> later == Finish(AnotherThreadOpening))
  }

  /** While the thread goes on serving, it does not change its mind. */
  lemma ServingStep(s: Sys, a: Action)
    requires Next(s, a).Some? && Serving(s.reconnector) && Serving(Next(s, a).value.reconnector)
    ensures Holds(s.reconnector, Next(s, a).value.reconnector)
  {
    if Bystander(a) {
      BystanderStep(s, a);
    }
  }

  /** Where the thread is before step `n`. */
  function ThreadAt(run: seq<Action>, n: nat): Reconnector
    requires n <= |run|
  {
    match At(run, n)
    case None => NotStarted
    case Some(s) => s.reconnector
  }

  lemma SettlesNow(run: seq<Action>, j: nat)
    requires j < |run| && After(run).Some? && Settles(run, j)
    ensures Settled(ThreadAt(run, j + 1))
  {
    StepAt(run, j);
  }

  lemma FindsOtherNow(run: seq<Action>, j: nat)
    requires j < |run| && After(run).Some? && FindsOther(run, j)
    ensures ThreadAt(run, j + 1) == Finish(AnotherThreadOpening)
  {
    StepAt(run, j);
  }

  lemma HoldsOneStep(run: seq<Action>, n: nat)
    requires n < |run| && After(run).Some? && Serving(ThreadAt(run, n)) && Serving(ThreadAt(run, n + 1))
    ensures Holds(ThreadAt(run, n), ThreadAt(run, n + 1))
  {
    StepAt(run, n);
    ServingStep(At(run, n).value, run[n]);
  }

  lemma {:induction false} ServingHolds(run: seq<Action>, i: nat, n: nat, k: nat)
    requires i < n <= k <= |run| && After(run).Some? && Served(run, i, k)
    ensures Holds(ThreadAt(run, n), ThreadAt(run, k))
    decreases k - n
  {
    if n < k {
      assert ServingAt(run, n) && ServingAt(run, n + 1);
      assert Holds(ThreadAt(run, n), ThreadAt(run, n + 1)) by {
        HoldsOneStep(run, n);
      }
      ServingHolds(run, i, n + 1, k);
    }
  }

  lemma SettledAtEnd(run: seq<Action>, i: nat, k: nat)
    requires i < k <= |run| && After(run).Some? && Served(run, i, k) && SettlesWithin(run, i, k)
    ensures Settled(ThreadAt(run, k))
  {
    var j :| i < j < k && Settles(run, j);
    SettlesNow(run, j);
    ServingHolds(run, i, j + 1, k);
  }

  lemma OtherAtEnd(run: seq<Action>, i: nat, k: nat)
    requires i < k <= |run| && After(run).Some? && Served(run, i, k) && FindsOtherWithin(run, i, k)
    ensures ThreadAt(run, k) == Finish(AnotherThreadOpening)
  {
    var j :| i < j < k && FindsOther(run, j);
    FindsOtherNow(run, j);
    ServingHolds(run, i, j + 1, k);
  }

  /** No pass both settles its request and finds another caller opening. */
  lemma NotBoth(run: seq<Action>, i: nat, k: nat)
    requires i < k <= |run| && After(run).Some? && Served(run, i, k)
    ensures !(SettlesWithin(run, i, k) && FindsOtherWithin(run, i, k))
  {
    if SettlesWithin(run, i, k) {
      SettledAtEnd(run, i, k);
      if FindsOtherWithin(run, i, k) {
        OtherAtEnd(run, i, k);
      }
    }
  }

  /**
   In a run without stop, whoever opens, a pending request is dropped only by the reconnect thread, at the
   end of one pass from picking it up, during which it was in progress; and in that pass the request was
   settled exactly if the thread did not find another caller opening.
   */
  lemma RequestServed(run: seq<Action>, k: nat) returns (i: nat)
    requires k < |run| && After(run).Some? && NoStop(run) && Drops(run, k)
    ensures i < k && Served(run, i, k) && run[k].OfReconnector?
    ensures SettlesWithin(run, i, k) <==> !FindsOtherWithin(run, i, k)
    ensures forall n :: i < n <= k ==> At(run, n).Some? && At(run, n).value.rec.state == ReconnectInProgress
  {
    StepAt(run, k);
    assert run[k] in run;
    DropStep(At(run, k).value, run[k]);
    i := PickedBefore(run, k);
    if At(run, k).value.reconnector == Finish(AnotherThreadOpening) {
      var j := OtherBefore(run, i, k);
    } else {
      var j := SettledBefore(run, i, k);
    }
    NotBoth(run, i, k);
    forall n | i < n <= k
      ensures At(run, n).Some? && At(run, n).value.rec.state == ReconnectInProgress
    {
      assert ServingAt(run, n);
      SubRun(run, n);
      ServedInProgress(run[..n]);
    }
  }

  /** With the reconnect thread as the only opener, a request is dropped only after it was settled. */
  lemma RequestSettled(run: seq<Action>, k: nat) returns (i: nat)
    requires k < |run| && After(run).Some? && NoStop(run) && Drops(run, k) && OnlyReconnectorOpens(run)
    ensures i < k && Served(run, i, k) && SettlesWithin(run, i, k)
  {
    i := RequestServed(run, k);
    if FindsOtherWithin(run, i, k) {
      OtherAtEnd(run, i, k);
      SubRun(run, k);
      SoleOpener(run[..k]);
    }
  }

  lemma OneMore(run: seq<Action>, a: Action)
    requires After(run).Some?
    ensures After(run + [a]) == Next(After(run).value, a)
  {
    assert (run + [a])[..|run|] == run;
  }

  const NO_ANSWER := Answer(false, OtherError, 0)

  /** The reader files a request. */
  const TO_THE_REQUEST: seq<Action> :=
    [StartReconnect] + [StartReader] + [OfReader(NO_ANSWER)] + [OfReader(NO_ANSWER)] + [OfReader(NO_ANSWER)]

  /** The reconnect thread picks it up and is about to take the lock in `open`. */
  const TO_THE_LOCK: seq<Action> :=
    TO_THE_REQUEST + [OfReconnector(true)] + [OfReconnector(true)] + [OfReconnector(true)] + [OfReconnector(true)]

  const REQUESTED: Sys := INITIAL.(sock := INITIAL.sock.(stop := false), rec := Shared(RequestReconnect, false),
                                   reader := Waiting(CheckAuto), reconnector := CheckRunning)

  lemma ToTheRequest()
    ensures After(TO_THE_REQUEST) == Some(REQUESTED)
  {
    OneMore([], StartReconnect);
    assert [] + [StartReconnect] == [StartReconnect];
    var r1 := [StartReconnect];
    OneMore(r1, StartReader);
    var r2 := r1 + [StartReader];
    OneMore(r2, OfReader(NO_ANSWER));
    var r3 := r2 + [OfReader(NO_ANSWER)];
    OneMore(r3, OfReader(NO_ANSWER));
    var r4 := r3 + [OfReader(NO_ANSWER)];
    OneMore(r4, OfReader(NO_ANSWER));
  }

  lemma ToTheLock()
    ensures After(TO_THE_LOCK)
         == Some(REQUESTED.(rec := Shared(ReconnectInProgress, false), reconnector := OpenLock))
  {
    ToTheRequest();
    OneMore(TO_THE_REQUEST, OfReconnector(true));
    var r1 := TO_THE_REQUEST + [OfReconnector(true)];
    OneMore(r1, OfReconnector(true));
    var r2 := r1 + [OfReconnector(true)];
    OneMore(r2, OfReconnector(true));
    var r3 := r2 + [OfReconnector(true)];
    OneMore(r3, OfReconnector(true));
  }

  /** Another caller gets the lock first. */
  const OVERTAKEN: seq<Action> := TO_THE_LOCK + [OfOpener(0, true)] + [OfOpener(0, true)]

  /** The reconnect thread finds it opening, and drops the request. */
  const DROPPED: seq<Action> := OVERTAKEN + [OfReconnector(true)] + [OfReconnector(true)]

  lemma Overtaken()
    ensures After(OVERTAKEN)
         == Some(REQUESTED.(sock := Socket(false, Opening, false, true), rec := Shared(ReconnectInProgress, false),
                            reconnector := OpenLock, openers := map[0 := AtProtocol]))
  {
    ToTheLock();
    OneMore(TO_THE_LOCK, OfOpener(0, true));
    OneMore(TO_THE_LOCK + [OfOpener(0, true)], OfOpener(0, true));
    assert map[0 := AtLock][0 := AtProtocol] == map[0 := AtProtocol];
  }

  /**
   With another opener a request can be dropped while nothing is open: the reconnect thread takes the
   other's attempt for its own, has attempted nothing, and automatic open is enabled.
   */
  lemma DroppedUnsettled()
    ensures var run := DROPPED;
            && After(run).Some? && NoStop(run) && FindsOther(run, |run| - 2) && Drops(run, |run| - 1)
            && After(run).value.sock == Socket(false, Opening, false, true) && After(run).value.seen.attempts == 0
  {
    var found := OVERTAKEN + [OfReconnector(true)];
    Overtaken();
    OneMore(OVERTAKEN, OfReconnector(true));
    OneMore(found, OfReconnector(true));
    assert DROPPED[..|DROPPED| - 2] == OVERTAKEN && DROPPED[..|DROPPED| - 1] == found;
    assert DROPPED[..|DROPPED|] == DROPPED;
  }

  lemma SubRun(run: seq<Action>, k: nat)
    requires k <= |run|
    ensures NoStop(run) ==> NoStop(run[..k])
    ensures OnlyReconnectorOpens(run) ==> OnlyReconnectorOpens(run[..k])
  {}
}
