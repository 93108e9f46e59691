/** The task runner and its backend: one goroutine runs the container and sends updates into a channel,
    another one reads them, publishes statuses into a second channel and shuts down, and a third one, the
    backend, writes what was published. A kill may come at any moment. */
module RunnerModel {
  import opened Option

  datatype Status = Starting | Running | Finished | Failed | Killed | Lost

  type Details = nat

  datatype Update = Update(status: Status, msg: string, details: Option<Details>)

  predicate Terminal(u: Update) { !u.status.Starting? && !u.status.Running? }

  const CAPACITY: nat := 10

  // ---- The order statuses may come in ----

  datatype Stage = Nothing | Created | Prepared | Said(msg: string) | Done(status: Status) | Broken

  function Next(g: Stage, u: Update): Stage {
    if g.Done? || g.Broken? then Broken
    else if Terminal(u) then Done(u.status)
    else if g.Nothing? && u.status.Starting? then Created
    else if g.Created? && u.status.Starting? then Prepared
    else if g.Prepared? && u.status.Running? then Said(u.msg)
    else if g.Said? && u.status.Running? && u.msg != g.msg then Said(u.msg)
    else Broken
  }

  /** The stage after the first k updates. */
  function StageAt(us: seq<Update>, k: nat): Stage
    requires k <= |us|
  {
    if k == 0 then Nothing else Next(StageAt(us, k - 1), us[k - 1])
  }

  function StageOf(us: seq<Update>): Stage { StageAt(us, |us|) }

  // ---- The goroutines ----

  /** runContainer and monitorContainer. */
  datatype Producer =
    | Begin
    | Preparing
    | Launching
    | Monitoring(lastMessage: string, runningSent: bool, details: Details)
    | AlsoLost(msg: string, about: Option<Details>) // Failed is sent for a bad entry point, and then Lost too
    | Closed

  /** startRunner after the task was accepted. Holding, Concluding and Unstarted are its sends into UpdatesChan:
      of an update, of the terminal status it has decided on, and of the Lost of a task without any update.
      It closes StoppedChan when it returns, and UpdatesChan after that; both are closed while it panics. */
  datatype Consumer =
    | Reading
    | Holding(update: Update)
    | ShuttingDown(last: Update)
    | Concluding(verdict: Update)
    | Unstarted
    | Draining
    | Stopped
    | Ended
    | Panicked

  /** RunWithBackend: in its select, waiting for StoppedChan after its context is done, or returned. */
  datatype Backend = Listening | Waiting | Returned

  /** updateChan holds sent[taken..]; producer Closed means it is closed as well. UpdatesChan holds
      published[read..]. */
  datatype State = State(producer: Producer, sent: seq<Update>, taken: nat, killed: bool,
                         consumer: Consumer, published: seq<Update>, backend: Backend, read: nat)

  const Init := State(Begin, [], 0, false, Reading, [], Listening, 0)

  datatype PrepareResult = Ready | BadRequest(msg: string) | PrepareError(msg: string)

  datatype LaunchResult =
    | Launched(info: Details)
    | BadEntryPoint(msg: string, details: Option<Details>)
    | LaunchError(msg: string, details: Option<Details>) // or the external logger failed

  datatype Message = SaysRunning(msg: string) | SaysFinished(msg: string) | SaysFailed(msg: string) | SaysOther(msg: string)

  /** Errors of the runtime's kill, the watcher and the cleanup, and the text that reports them. */
  datatype Errors = Errors(kill: bool, watcher: bool, cleanup: bool, report: string)

  datatype Event =
    | Kill
    | GiveUp
    | Create
    | Prepare(prepared: PrepareResult)
    | Launch(launched: LaunchResult)
    | SendLost
    | Receive(message: Message)
    | Disconnect
    | StopMonitoring
    | Take
    | SeeClosed
    | Decide(errors: Errors)
    | Publish
    | Drain
    | CloseUpdates
    | Listen
    | SeeUpdatesClosed
    | SeeStopped
    | ContextDone
    | WaitOver

  predicate Room(s: State) { |s.sent| - s.taken < CAPACITY }

  predicate RoomOut(s: State) { |s.published| - s.read < CAPACITY }

  predicate Publishes(c: Consumer) { c.Holding? || c.Concluding? || c.Unstarted? }

  predicate StoppedClosed(s: State) { s.consumer.Stopped? || UpdatesClosed(s) }

  predicate UpdatesClosed(s: State) { s.consumer.Ended? || s.consumer.Panicked? }

  predicate Enabled(s: State, e: Event) {
    match e
    case Kill => true
    case GiveUp => s.producer.Begin? && s.killed
    case Create => s.producer.Begin? && !s.killed && Room(s)
    case Prepare(_) => s.producer.Preparing? && Room(s)
    case Launch(_) => s.producer.Launching? && Room(s)
    case SendLost => s.producer.AlsoLost? && Room(s)
    case Receive(_) => s.producer.Monitoring? && Room(s)
    case Disconnect => s.producer.Monitoring? && Room(s)
    case StopMonitoring => s.producer.Monitoring? && s.killed
    case Take => s.consumer.Reading? && s.taken < |s.sent|
    case SeeClosed => s.consumer.Reading? && s.taken == |s.sent| && s.producer.Closed?
    case Decide(_) => s.consumer.ShuttingDown?
    case Publish => Publishes(s.consumer) && RoomOut(s)
    case Drain => s.consumer.Draining? && (s.taken < |s.sent| || s.producer.Closed?)
    case CloseUpdates => s.consumer.Stopped?
    case Listen => s.backend.Listening? && s.read < |s.published|
    case SeeUpdatesClosed => s.backend.Listening? && s.read == |s.published| && UpdatesClosed(s)
    case SeeStopped => s.backend.Listening? && StoppedClosed(s)
    case ContextDone => s.backend.Listening?
    case WaitOver => s.backend.Waiting? && StoppedClosed(s)
  }

  function Send(s: State, u: Update, producer: Producer): State {
    s.(sent := s.sent + [u], producer := producer)
  }

  /** What the container's status message makes monitorContainer do. */
  function Received(s: State, m: Message): State
    requires s.producer.Monitoring?
  {
    var p := s.producer;
    match m
    case SaysRunning(msg) =>
      if p.runningSent && msg == p.lastMessage then s
      else var text := if !p.runningSent && msg == "" then "running" else msg;
           Send(s, Update(Running, text, Some(p.details)), Monitoring(text, true, p.details))
    case SaysFinished(msg) => Send(s, Update(Finished, if msg == "" then "finished" else msg, Some(p.details)), Closed)
    case SaysFailed(msg) => Send(s, Update(Failed, msg, Some(p.details)), Closed)
    case SaysOther(msg) => Send(s, Update(Lost, msg, Some(p.details)), Closed)
  }

  /** The last status that doShutdown decides on. */
  function Verdict(last: Update, killed: bool, errors: Errors): Update {
    var killError := errors.kill && !last.status.Finished? && !last.status.Failed?;
    var msg := if killError || errors.watcher || errors.cleanup then errors.report else last.msg;
    if last.status.Finished? then last.(msg := msg)
    else if killed then Update(Killed, msg, last.details)
    else if !Terminal(last) then Update(Lost, "Container lost -- Unknown", last.details)
    else last
  }

  function InHand(c: Consumer): Update
    requires Publishes(c)
  {
    match c
    case Holding(u) => u
    case Concluding(t) => t
    case Unstarted => Update(Lost, "Task run stopped without making any progress", None)
  }

  function Step(s: State, e: Event): State
    requires Enabled(s, e)
  {
    match e
    case Kill => s.(killed := true)
    case GiveUp => s.(producer := Closed)
    case Create => Send(s, Update(Starting, "creating", None), Preparing)
    case Prepare(Ready) => Send(s, Update(Starting, "starting", None), Launching)
    case Prepare(BadRequest(msg)) => Send(s, Update(Failed, msg, None), Closed)
    case Prepare(PrepareError(msg)) => Send(s, Update(Lost, msg, None), Closed)
    case Launch(Launched(d)) => s.(producer := Monitoring("", false, d))
    case Launch(BadEntryPoint(msg, d)) => Send(s, Update(Failed, msg, d), AlsoLost(msg, d))
    case Launch(LaunchError(msg, d)) => Send(s, Update(Lost, msg, d), Closed)
    case SendLost => Send(s, Update(Lost, s.producer.msg, s.producer.about), Closed)
    case Receive(m) => Received(s, m)
    case Disconnect => Send(s, Update(Lost, "Lost connection to runtime driver", Some(s.producer.details)), Closed)
    case StopMonitoring => s.(producer := Closed)
    case Take =>
      var u := s.sent[s.taken];
      s.(taken := s.taken + 1, consumer := if Terminal(u) then ShuttingDown(u) else Holding(u))
    case SeeClosed => s.(consumer := if s.sent == [] then Unstarted else ShuttingDown(s.sent[|s.sent| - 1]))
    case Decide(errors) => s.(consumer := Concluding(Verdict(s.consumer.last, s.killed, errors)))
    case Publish =>
      s.(published := s.published + [InHand(s.consumer)],
         consumer := if s.consumer.Holding? then Reading else if s.consumer.Concluding? then Draining else Stopped)
    case Drain => s.(consumer := if s.taken < |s.sent| then Panicked else Stopped)
    case CloseUpdates => s.(consumer := Ended)
    case Listen => s.(read := s.read + 1)
    case SeeUpdatesClosed => s.(backend := Returned)
    case SeeStopped => s.(backend := Returned)
    case ContextDone => s.(backend := Waiting, killed := true) // it kills the task
    case WaitOver => s.(backend := Returned)
  }
}
