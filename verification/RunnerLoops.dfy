/** The runner's two loops as code: monitoring the container, and reading updates until the shutdown.
    Each is proved to do what the steps of the runner's model do. */
module RunnerLoops {
  import opened Option
  import opened RunnerModel
  import opened RunnerProofs

  /** What a receive in monitorContainer can yield. */
  datatype Inbox = Says(message: Message) | Gone | KillSeen

  /** The model's state after monitoring these receives, until one of them ends it. */
  function Monitored(s: State, inbox: seq<Inbox>): State
    requires s.producer.Monitoring?
    decreases |inbox|
  {
    if inbox == [] then s
    else match inbox[0]
      case KillSeen => s.(producer := Closed)
      case Gone => Send(s, Update(Lost, "Lost connection to runtime driver", Some(s.producer.details)), Closed)
      case Says(m) =>
        var s' := Received(s, m);
        if s'.producer.Monitoring? then Monitored(s', inbox[1..]) else s'
  }

  /** The receive ends the monitoring. */
  predicate Quits(x: Inbox) { x.Says? ==> !x.message.SaysRunning? }

  /** The update that goes with it; a kill that is seen sends none. */
  function LastWord(x: Inbox, details: Details): Option<Update>
    requires Quits(x)
  {
    match x
    case KillSeen => None
    case Gone => Some(Update(Lost, "Lost connection to runtime driver", Some(details)))
    case Says(SaysFinished(m)) => Some(Update(Finished, if m == "" then "finished" else m, Some(details)))
    case Says(SaysFailed(m)) => Some(Update(Failed, m, Some(details)))
    case Says(SaysOther(m)) => Some(Update(Lost, m, Some(details)))
  }

  /** The updates before are Running ones, and then the last word of the first receive that ends the monitoring. */
  ghost predicate Reports(before: seq<Update>, after: seq<Update>, inbox: seq<Inbox>, details: Details) {
    && before <= after
    && (forall i :: |before| <= i < |after| - 1 ==> after[i].status.Running? && after[i].details == Some(details))
    && forall n :: 0 <= n < |inbox| && Quits(inbox[n]) && (forall m :: 0 <= m < n ==> !Quits(inbox[m])) ==>
         if inbox[n].KillSeen? then |before| < |after| ==> after[|after| - 1].status.Running?
         else |before| < |after| && Some(after[|after| - 1]) == LastWord(inbox[n], details)
  }

  lemma {:induction false} MonitoredReports(s: State, inbox: seq<Inbox>)
    requires s.producer.Monitoring?
    ensures Reports(s.sent, Monitored(s, inbox).sent, inbox, s.producer.details)
    ensures (forall n :: 0 <= n < |inbox| ==> !Quits(inbox[n])) ==>
              forall i :: |s.sent| <= i < |Monitored(s, inbox).sent| ==> Monitored(s, inbox).sent[i].status.Running?
    decreases |inbox|
  {
    if inbox != [] && !Quits(inbox[0]) {
      var s' := Received(s, inbox[0].message);
      MonitoredReports(s', inbox[1..]);
      ReportsMore(s.sent, s'.sent, Monitored(s, inbox).sent, inbox, s.producer.details);
    }
  }

  /** One more Running update, or a repeated one, in front. */
  lemma ReportsMore(before: seq<Update>, before': seq<Update>, after: seq<Update>, inbox: seq<Inbox>, details: Details)
    requires inbox != [] && !Quits(inbox[0]) && Reports(before', after, inbox[1..], details)
    requires before' == before || (|before'| == |before| + 1 && before <= before' &&
                                   before'[|before|].status.Running? && before'[|before|].details == Some(details))
    ensures Reports(before, after, inbox, details)
  {
    assert |before'| > |before| ==> after[|before|] == before'[|before|];
    forall n | 0 <= n < |inbox| && Quits(inbox[n]) && (forall m :: 0 <= m < n ==> !Quits(inbox[m]))
      ensures if inbox[n].KillSeen? then |before| < |after| ==> after[|after| - 1].status.Running?
              else |before| < |after| && Some(after[|after| - 1]) == LastWord(inbox[n], details)
    {
      var rest := inbox[1..];
      assert inbox[n] == rest[n - 1] && forall m :: 0 <= m < n - 1 ==> rest[m] == inbox[m + 1];
    }
  }

  /** Everything published for the updates of one task. */
  function Consumed(us: seq<Update>, killed: bool, errors: Errors): seq<Update> {
    if us == [] then [Update(Lost, "Task run stopped without making any progress", None)]
    else var k := Progress(us); us[..k] + [Verdict(us[if k < |us| then k else k - 1], killed, errors)]
  }

  class Runner {
    var updateChan: seq<Update>
    var updates: seq<Update> // UpdatesChan
    var killed: bool         // killChan is closed

    constructor ()
      ensures updateChan == [] && updates == [] && !killed
    {
      updateChan, updates, killed := [], [], false;
    }

    /** Idempotent: the channel is closed once. */
    method Kill()
      modifies this`killed
      ensures killed
    {
      killed := true;
    }

    /** A Running update, unless it would repeat the last one. */
    method HandleTaskRunningMessage(msg: string, lastMessage: string, runningSent: bool, details: Details)
      returns (lastMessage': string, runningSent': bool)
      modifies this`updateChan
      ensures runningSent'
      ensures updateChan == if runningSent && lastMessage' == lastMessage then old(updateChan)
                            else old(updateChan) + [Update(Running, lastMessage', Some(details))]
      ensures lastMessage' == (if msg == "" && !runningSent then "running" else msg)
    {
      if msg == lastMessage && runningSent {
        return lastMessage, runningSent;
      }
      var text := msg;
      if !runningSent {
        if text == "" {
          text := "running";
        }
      }
      updateChan := updateChan + [Update(Running, text, Some(details))];
      return text, true;
    }

    method MonitorContainer(inbox: seq<Inbox>, details: Details, ghost s: State)
      requires s.producer == Monitoring("", false, details) && updateChan == s.sent
      modifies this`updateChan
      ensures updateChan == Monitored(s, inbox).sent && Reports(old(updateChan), updateChan, inbox, details)
    {
      MonitoredReports(s, inbox);
      var lastMessage, runningSent := "", false;
      ghost var now := s;
      var i := 0;
      while i < |inbox|
        invariant i <= |inbox| && now.producer == Monitoring(lastMessage, runningSent, details)
        invariant updateChan == now.sent && Monitored(s, inbox) == Monitored(now, inbox[i..])
      {
        var received := inbox[i];
        assert inbox[i..][1..] == inbox[i + 1..];
        match received {
          case KillSeen => return;
          case Gone =>
            updateChan := updateChan + [Update(Lost, "Lost connection to runtime driver", Some(details))];
            return;
          case Says(SaysRunning(msg)) =>
            lastMessage, runningSent := HandleTaskRunningMessage(msg, lastMessage, runningSent, details);
            now := Received(now, SaysRunning(msg));
          case Says(SaysFinished(msg)) =>
            updateChan := updateChan + [Update(Finished, if msg == "" then "finished" else msg, Some(details))];
            return;
          case Says(SaysFailed(msg)) =>
            updateChan := updateChan + [Update(Failed, msg, Some(details))];
            return;
          case Says(SaysOther(msg)) =>
            updateChan := updateChan + [Update(Lost, msg, Some(details))];
            return;
        }
        i := i + 1;
      }
    }

    method DoShutdown(last: Update, errors: Errors)
      modifies this`updates
      ensures updates == old(updates) + [Verdict(last, killed, errors)]
    {
      var failed := errors.kill;
      if last.status.Finished? || last.status.Failed? {
        failed := false;
      }
      failed := failed || errors.watcher || errors.cleanup;
      var msg := last.msg;
      if failed {
        msg := errors.report;
      }
      if last.status.Finished? {
        updates := updates + [Update(last.status, msg, last.details)];
      } else if killed {
        updates := updates + [Update(Killed, msg, last.details)];
      } else if !Terminal(last) {
        updates := updates + [Update(Lost, "Container lost -- Unknown", last.details)];
      } else {
        updates := updates + [Update(last.status, last.msg, last.details)];
      }
    }

    /** startRunner's loop over everything that goes through updateChan before it is closed. */
    method Consume(errors: Errors) returns (panicked: bool)
      requires updates == []
      modifies this`updates
      ensures updates == Consumed(updateChan, killed, errors)
      ensures panicked <==> Progress(updateChan) + 1 < |updateChan|
    {
      var i := 0;
      var lastUpdate := None;
      while i < |updateChan|
        invariant i <= Progress(updateChan) && updates == updateChan[..i]
        invariant lastUpdate == if i == 0 then None else Some(updateChan[i - 1])
        decreases |updateChan| - i
      {
        var u := updateChan[i];
        i := i + 1;
        lastUpdate := Some(u);
        if Terminal(u) {
          break;
        }
        updates := updates + [u];
      }
      if lastUpdate.None? {
        updates := updates + [Update(Lost, "Task run stopped without making any progress", None)];
        return false;
      }
      DoShutdown(lastUpdate.value, errors);
      panicked := i < |updateChan|;
    }
  }

  /** In every run of the model, what is published in the end is exactly what the reading loop publishes for
      the updates and the kill that the decision found. */
  lemma ModelConsumes(ss: seq<State>, es: seq<Event>, j: nat, k: nat)
    requires IsRun(ss, es) && j < k < |ss| && es[j].Decide? && AfterShutdown(ss[k])
    ensures ss[k].published == Consumed(ss[j].sent, ss[j].killed, es[j].errors)
  {
    var s := ss[j];
    RunInv(ss, es, j);
    DecisionStands(ss, es, j, k);
    var last := s.consumer.last;
    HeardIs(s, last);
    assert s.sent[..|s.sent|] == s.sent;
  }
}
