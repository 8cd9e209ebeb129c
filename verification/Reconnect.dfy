/**
 The reconnect protocol of the socket helper as a transition system.  A reader thread, a
 reconnect thread and any number of senders and other callers share two separately locked
 records.  Every locked section is one atomic step; a step of a thread depends only on its
 program counter, the shared state and what the environment answers.  Runs are arbitrary
 interleavings.
 */
module Reconnect {
  import opened Wrappers

  datatype OpenState = NotOpen | Opening | Open
  datatype ReconnectState = NotReconnecting | RequestReconnect | ReconnectInProgress

  /** Results of socket calls; `OtherError` stands for the remaining failure codes. */
  datatype Status =
    | Success
    | InterruptedTryAgain
    | NoDataAvailable
    | Disconnected
    | AutoConnectDisabled
    | AnotherThreadOpening
    | OtherError

  // ----- Program counters -----

  /** Inside `wait_for_reconnect`. */
  datatype Wait = CheckAuto | Poll | SeeOpen | RecheckAuto

  /** The reconnect thread. */
  datatype Reconnector =
    | NotStarted
    | CheckRunning
    | Pick
    | ReopenSeeOpen
    | ReopenSeeAuto
    | OpenLock
    | Protocol
    | Publish
    | Unpublish
    | Connected
    | Finish(result: Status)
    | Done

  /** The reader thread; `id` is the buffer it holds. */
  datatype Reader =
    | ReaderNotStarted
    | TopOpened
    | TopRunning
    | Request
    | Waiting(wait: Wait)
    | ReadOpened
    | ReadRunning
    | GetBuffer
    | CloneStream(id: nat)
    | Receiving(id: nat)
    | RecvClose(id: nat)
    | LoopClose(id: nat, status: Status)
    | Deliver(id: nat, status: Status, size: nat)
    | Bottom
    | FinalClose
    | ReaderDone

  /** A caller of `send`. */
  datatype Sender =
    | FirstClone
    | SendRequest
    | SendWaiting(wait: Wait)
    | SecondClone
    | Sending
    | SendClose
    | Sent(status: Status)

  /** A caller of `open` other than the reconnect thread. */
  datatype Opener = AtLock | AtProtocol | AtPublish | AtUnpublish | OpenerDone

  datatype Delivery = Delivery(id: nat, status: Status, size: nat)

  /** The record under the state lock. */
  datatype Socket = Socket(stream: bool, open: OpenState, stop: bool, reopen: bool)

  /** The record under the reconnect lock. */
  datatype Shared = Shared(state: ReconnectState, stop: bool)

  /** What has been observed: buffers obtained, buffers delivered, opens attempted. */
  datatype Seen = Seen(obtained: nat, delivered: seq<Delivery>, attempts: nat)

  datatype Sys = Sys(
    sock: Socket, rec: Shared,
    reader: Reader, reconnector: Reconnector, senders: map<nat, Sender>, openers: map<nat, Opener>,
    seen: Seen)

  const INITIAL: Sys := Sys(Socket(false, NotOpen, true, true), Shared(NotReconnecting, true),
                            ReaderNotStarted, NotStarted, map[], map[], Seen(0, [], 0))

  // ----- Locked sections -----

  function Closed(k: Socket): Socket { k.(stream := false, open := NotOpen) }

  function Requested(r: Shared): Shared {
    if r.state == NotReconnecting then r.(state := RequestReconnect) else r
  }

  /** One step of a wait: the next program counter, or the result. */
  function WaitStep(s: Sys, w: Wait, timeout: bool): Result<Wait, Status> {
    match w
    case CheckAuto => if s.sock.reopen then Ok(Poll) else Err(AutoConnectDisabled)
    case Poll => if timeout || s.rec.state == NotReconnecting || s.rec.stop then Ok(SeeOpen) else Ok(Poll)
    case SeeOpen => if s.sock.open == Open then Err(Success) else Ok(RecheckAuto)
    case RecheckAuto => if s.sock.reopen then Err(Disconnected) else Err(AutoConnectDisabled)
  }

  // ----- Threads -----

  /** The reconnect thread; `ok` is whether the protocol opens. */
  function ReconnectorStep(s: Sys, ok: bool): Option<Sys> {
    match s.reconnector
    case NotStarted => None
    case CheckRunning => Some(s.(reconnector := if s.rec.stop then Done else Pick))
    case Pick =>
      (match s.rec.state
       case RequestReconnect => Some(s.(rec := s.rec.(state := ReconnectInProgress), reconnector := ReopenSeeOpen))
       case ReconnectInProgress => Some(s.(reconnector := ReopenSeeOpen))
       case NotReconnecting => Some(s.(reconnector := CheckRunning)))
    case ReopenSeeOpen => Some(s.(reconnector := if s.sock.open == Open then Finish(Success) else ReopenSeeAuto))
    case ReopenSeeAuto => Some(s.(reconnector := if s.sock.reopen then OpenLock else Finish(AutoConnectDisabled)))
    case OpenLock =>
      if s.sock.open == NotOpen then Some(s.(sock := s.sock.(open := Opening), reconnector := Protocol, seen := s.seen.(attempts := s.seen.attempts + 1)))
      else Some(s.(reconnector := Finish(AnotherThreadOpening)))
    case Protocol => Some(s.(reconnector := if ok then Publish else Unpublish))
    case Publish => Some(s.(sock := s.sock.(stream := true, open := Open), reconnector := Connected))
    case Unpublish => Some(s.(sock := Closed(s.sock), reconnector := Finish(OtherError)))
    case Connected => Some(s.(reconnector := Finish(Success)))
    case Finish(status) =>
      if status == Success || status == AutoConnectDisabled || status == AnotherThreadOpening
      then Some(s.(rec := s.rec.(state := NotReconnecting), reconnector := CheckRunning))
      else Some(s.(reconnector := CheckRunning))
    case Done => None
  }

  /** What the environment answers the reader: a flag, and the outcome of a receive. */
  datatype Answer = Answer(flag: bool, status: Status, size: nat)

  /** What `socket_recv` can return: bytes exactly on success. */
  predicate ReceiveOutcome(a: Answer) {
    a.status != AutoConnectDisabled && a.status != AnotherThreadOpening && (a.size > 0 <==> a.status == Success)
  }

  /** After a receive: the close of `recv`, the close of the loop, then delivery. */
  function Received(id: nat, status: Status, size: nat): Reader {
    if status == Success || status == InterruptedTryAgain || status == NoDataAvailable
    then Deliver(id, status, size) else LoopClose(id, status)
  }

  function ReaderStep(s: Sys, a: Answer): Option<Sys> {
    match s.reader
    case ReaderNotStarted => None
    case TopOpened => Some(s.(reader := if s.sock.open == Open then ReadOpened else TopRunning))
    case TopRunning => Some(s.(reader := if s.sock.stop then ReadOpened else Request))
    case Request => Some(s.(rec := Requested(s.rec), reader := Waiting(CheckAuto)))
    case Waiting(w) =>
      (match WaitStep(s, w, a.flag)
       case Ok(w') => Some(s.(reader := Waiting(w')))
       case Err(status) => Some(s.(reader := if status == AutoConnectDisabled then FinalClose else ReadOpened)))
    case ReadOpened => Some(s.(reader := if s.sock.open == Open then ReadRunning else Bottom))
    case ReadRunning => Some(s.(reader := if s.sock.stop then Bottom else GetBuffer))
    case GetBuffer =>
      if a.flag then Some(s.(reader := CloneStream(s.seen.obtained), seen := s.seen.(obtained := s.seen.obtained + 1)))
      else Some(s.(reader := Bottom))
    case CloneStream(id) =>
      Some(s.(reader := if s.sock.stream && a.flag then Receiving(id) else LoopClose(id, Disconnected)))
    case Receiving(id) =>
      if !ReceiveOutcome(a) then None
      else Some(s.(reader := if a.status == Disconnected then RecvClose(id) else Received(id, a.status, a.size)))
    case RecvClose(id) => Some(s.(sock := Closed(s.sock), reader := Received(id, Disconnected, 0)))
    case LoopClose(id, status) => Some(s.(sock := Closed(s.sock), reader := Deliver(id, status, 0)))
    case Deliver(id, status, size) =>
      Some(s.(reader := Bottom, seen := s.seen.(delivered := s.seen.delivered + [Delivery(id, status, size)])))
    case Bottom => Some(s.(reader := if s.sock.stop then FinalClose else TopOpened))
    case FinalClose => Some(s.(sock := Closed(s.sock), reader := ReaderDone))
    case ReaderDone => None
  }

  function SenderStep(s: Sys, i: nat, a: Answer): Option<Sys> {
    if i !in s.senders then Some(s.(senders := s.senders[i := FirstClone]))
    else
      match s.senders[i]
      case FirstClone => Some(s.(senders := s.senders[i := if s.sock.stream && a.flag then Sending else SendRequest]))
      case SendRequest => Some(s.(rec := Requested(s.rec), senders := s.senders[i := SendWaiting(CheckAuto)]))
      case SendWaiting(w) =>
        (match WaitStep(s, w, a.flag)
         case Ok(w') => Some(s.(senders := s.senders[i := SendWaiting(w')]))
         case Err(status) => Some(s.(senders := s.senders[i := if status == Success then SecondClone else Sent(status)])))
      case SecondClone => Some(s.(senders := s.senders[i := if s.sock.stream && a.flag then Sending else Sent(Disconnected)]))
      case Sending => Some(s.(senders := s.senders[i := if a.status == Disconnected then SendClose else Sent(a.status)]))
      case SendClose => Some(s.(sock := Closed(s.sock), senders := s.senders[i := Sent(Disconnected)]))
      case Sent(_) => None
  }

  function OpenerStep(s: Sys, i: nat, ok: bool): Option<Sys> {
    if i !in s.openers then Some(s.(openers := s.openers[i := AtLock]))
    else
      match s.openers[i]
      case AtLock =>
        if s.sock.open == NotOpen then Some(s.(sock := s.sock.(open := Opening), openers := s.openers[i := AtProtocol]))
        else Some(s.(openers := s.openers[i := OpenerDone]))
      case AtProtocol => Some(s.(openers := s.openers[i := if ok then AtPublish else AtUnpublish]))
      case AtPublish => Some(s.(sock := s.sock.(stream := true, open := Open), openers := s.openers[i := OpenerDone]))
      case AtUnpublish => Some(s.(sock := Closed(s.sock), openers := s.openers[i := OpenerDone]))
      case OpenerDone => None
  }

  // ----- Runs -----

  datatype Action =
    | StartReconnect
    | StartReader
    | OfReconnector(ok: bool)
    | OfReader(answer: Answer)
    | OfSender(i: nat, answer: Answer)
    | OfOpener(i: nat, ok: bool)
    | CloseCall
    | SetAutomaticOpen(auto: bool)
    | StopReader    // the first locked section of `stop`
    | StopReconnect // the second; the shutdown after it changes nothing here

  function Next(s: Sys, a: Action): Option<Sys> {
    match a
    case StartReconnect => if s.reconnector.NotStarted? then Some(s.(rec := s.rec.(stop := false), reconnector := CheckRunning)) else None
    case StartReader =>
      if s.reader.ReaderNotStarted? && !s.reconnector.NotStarted? then Some(s.(sock := s.sock.(stop := false), reader := TopOpened)) else None
    case OfReconnector(ok) => ReconnectorStep(s, ok)
    case OfReader(answer) => ReaderStep(s, answer)
    case OfSender(i, answer) => SenderStep(s, i, answer)
    case OfOpener(i, ok) => OpenerStep(s, i, ok)
    case CloseCall => Some(s.(sock := Closed(s.sock)))
    case SetAutomaticOpen(auto) => Some(s.(sock := s.sock.(reopen := auto)))
    case StopReader => Some(s.(sock := s.sock.(stop := true)))
    case StopReconnect => Some(s.(rec := Shared(NotReconnecting, true)))
  }

  /** The state after a run, `None` if some step was not enabled. */
  function After(run: seq<Action>): Option<Sys> {
    if run == [] then Some(INITIAL)
    else
      match After(run[..|run| - 1])
      case None => None
      case Some(s) => Next(s, run[|run| - 1])
  }
}
