/** From what the container did to what its task is reported as: every update is sent by its event, and the last status
    is that of the event that ended the container, unless the task was killed in time. */
module RunnerOutcome {
  import opened Option
  import opened RunnerModel
  import opened RunnerProofs

  // ---- Who sends what ----

  /** The update that the event makes the container's side send. */
  function SentBy(s: State, e: Event): Option<Update>
    requires Enabled(s, e)
  {
    match e
    case Create => Some(Update(Starting, "creating", None))
    case Prepare(Ready) => Some(Update(Starting, "starting", None))
    case Prepare(BadRequest(m)) => Some(Update(Failed, m, None))
    case Prepare(PrepareError(m)) => Some(Update(Lost, m, None))
    case Launch(Launched(_)) => None
    case Launch(BadEntryPoint(m, d)) => Some(Update(Failed, m, d))
    case Launch(LaunchError(m, d)) => Some(Update(Lost, m, d))
    case SendLost => Some(Update(Lost, s.producer.msg, s.producer.about))
    case Receive(SaysRunning(m)) =>
      if !s.producer.runningSent then Some(Update(Running, if m == "" then "running" else m, Some(s.producer.details)))
      else if m != s.producer.lastMessage then Some(Update(Running, m, Some(s.producer.details)))
      else None
    case Receive(SaysFinished(m)) => Some(Update(Finished, if m == "" then "finished" else m, Some(s.producer.details)))
    case Receive(SaysFailed(m)) => Some(Update(Failed, m, Some(s.producer.details)))
    case Receive(SaysOther(m)) => Some(Update(Lost, m, Some(s.producer.details)))
    case Disconnect => Some(Update(Lost, "Lost connection to runtime driver", Some(s.producer.details)))
    case _ => None
  }

  lemma SendsExactly(s: State, e: Event)
    requires Enabled(s, e)
    ensures Step(s, e).sent == if SentBy(s, e).Some? then s.sent + [SentBy(s, e).value] else s.sent
  {
  }

  /** The container's side is over with these events; a kill that it sees ends it without an update. */
  predicate Ends(e: Event) {
    || (e.Prepare? && !e.prepared.Ready?) || (e.Launch? && !e.launched.Launched?)
    || (e.Receive? && !e.message.SaysRunning?) || e.Disconnect?
  }

  /** Only one event ends the container, and the first terminal update is the one that it sends. */
  lemma {:induction false} EndedBy(ss: seq<State>, es: seq<Event>, m: nat, k: nat)
    requires IsRun(ss, es) && m < k < |ss| && Ends(es[m])
    ensures Enabled(ss[m], es[m]) && SentBy(ss[m], es[m]).Some?
    ensures FirstTerminal(ss[k].sent) == SentBy(ss[m], es[m])
    ensures ss[k].producer.AlsoLost? || ss[k].producer.Closed?
  {
    assert StepAt(ss, es, k - 1);
    var s, e := ss[k - 1], es[k - 1];
    SendsExactly(s, e);
    if m == k - 1 {
      NotEnded(ss, es, m);
      FirstAppended(s.sent, SentBy(s, e).value);
      OverAfter(s, e);
    } else {
      EndedBy(ss, es, m, k - 1);
      StaysOver(s, e);
      if SentBy(s, e).Some? { FirstStays(s.sent, SentBy(s, e).value); }
    }
  }

  lemma OverAfter(s: State, e: Event)
    requires Enabled(s, e) && Ends(e)
    ensures Terminal(SentBy(s, e).value) && (Step(s, e).producer.AlsoLost? || Step(s, e).producer.Closed?)
  {
  }

  lemma StaysOver(s: State, e: Event)
    requires Enabled(s, e) && (s.producer.AlsoLost? || s.producer.Closed?)
    ensures Step(s, e).producer.AlsoLost? || Step(s, e).producer.Closed?
  {
  }

  /** While the container's side is not over, nothing terminal was sent. */
  lemma NotEnded(ss: seq<State>, es: seq<Event>, k: nat)
    requires IsRun(ss, es) && k < |ss| && !ss[k].producer.AlsoLost? && !ss[k].producer.Closed?
    ensures FirstTerminal(ss[k].sent) == None
  {
    RunInv(ss, es, k);
    assert Open(StageOf(ss[k].sent));
    NoneTerminal(ss[k].sent, |ss[k].sent|);
  }

  lemma FirstAppended(us: seq<Update>, u: Update)
    requires FirstTerminal(us) == None && Terminal(u)
    ensures FirstTerminal(us + [u]) == Some(u)
  {
    assert forall i :: 0 <= i < |us| ==> (us + [u])[i] == us[i];
    assert (us + [u])[|us|] == u;
  }

  lemma FirstStays(us: seq<Update>, u: Update)
    requires FirstTerminal(us).Some?
    ensures FirstTerminal(us + [u]) == FirstTerminal(us)
  {
    assert forall i :: 0 <= i < |us| ==> (us + [u])[i] == us[i];
  }

  /** A run in which nothing has ended the container has sent nothing terminal. */
  lemma {:induction false} NoEndNoTerminal(ss: seq<State>, es: seq<Event>, k: nat)
    requires IsRun(ss, es) && k < |ss| && forall m :: 0 <= m < k ==> !Ends(es[m])
    ensures FirstTerminal(ss[k].sent) == None && !ss[k].producer.AlsoLost?
  {
    if k > 0 {
      NoEndNoTerminal(ss, es, k - 1);
      assert StepAt(ss, es, k - 1);
      SendsExactly(ss[k - 1], es[k - 1]);
      QuietStep(ss[k - 1], es[k - 1]);
      if ss[k].sent != ss[k - 1].sent { NoneAppended(ss[k - 1].sent, SentBy(ss[k - 1], es[k - 1]).value); }
    }
  }

  lemma QuietStep(s: State, e: Event)
    requires Enabled(s, e) && !Ends(e) && !s.producer.AlsoLost?
    ensures !Step(s, e).producer.AlsoLost? && (SentBy(s, e).Some? ==> !Terminal(SentBy(s, e).value))
  {
  }

  lemma NoneAppended(us: seq<Update>, u: Update)
    requires FirstTerminal(us) == None && !Terminal(u)
    ensures FirstTerminal(us + [u]) == None
  {
    assert forall i :: 0 <= i < |us| ==> (us + [u])[i] == us[i];
  }

  /** The details that running updates carry are those that the launch returned. */
  lemma {:induction false} DetailsFrom(ss: seq<State>, es: seq<Event>, k: nat)
    requires IsRun(ss, es) && k < |ss| && ss[k].producer.Monitoring?
    ensures exists l :: 0 <= l < k && es[l] == Launch(Launched(ss[k].producer.details))
  {
    if k > 0 {
      assert StepAt(ss, es, k - 1);
      DetailsStep(ss[k - 1], es[k - 1]);
      if ss[k - 1].producer.Monitoring? { DetailsFrom(ss, es, k - 1); }
    }
  }

  lemma DetailsStep(s: State, e: Event)
    requires Enabled(s, e) && Step(s, e).producer.Monitoring?
    ensures if s.producer.Monitoring? then Step(s, e).producer.details == s.producer.details
            else e == Launch(Launched(Step(s, e).producer.details))
  {
  }

  // ---- What the task is reported as ----

  /** The text that goes with a status: the errors of the shutdown, if there are any that count. */
  predicate Complains(errors: Errors, u: Update) {
    errors.watcher || errors.cleanup || (errors.kill && u.status != Finished && u.status != Failed)
  }

  /** The last status of a task whose container was ended by event m: Finished if the container said so, killed or not;
      else Killed if the task was killed by the time of the decision; else exactly what that event sent. */
  lemma OutcomeIs(ss: seq<State>, es: seq<Event>, m: nat, j: nat, k: nat)
    requires IsRun(ss, es) && m < j < k < |ss| && Ends(es[m]) && es[j].Decide? && AfterShutdown(ss[k])
    ensures Enabled(ss[m], es[m]) && SentBy(ss[m], es[m]).Some? && |ss[k].published| > 0
    ensures var u, t := SentBy(ss[m], es[m]).value, ss[k].published[|ss[k].published| - 1];
            var text := if Complains(es[j].errors, u) then es[j].errors.report else u.msg;
            && (u.status == Finished ==> t == Update(Finished, text, u.details))
            && (u.status != Finished && ss[j].killed ==> t == Update(Killed, text, u.details))
            && (u.status != Finished && !ss[j].killed ==> t == u)
  {
    EndedBy(ss, es, m, j);
    RunInv(ss, es, j);
    DecisionStands(ss, es, j, k);
    HeardIs(ss[j], ss[j].consumer.last);
  }

  /** So, unless the task was killed by then: a container that finished, failed or got lost is reported as that, with its
      own message and details, and so are errors of the preparation and of the launch. */
  lemma StatusByEvent(ss: seq<State>, es: seq<Event>, m: nat, j: nat, k: nat)
    requires IsRun(ss, es) && m < j < k < |ss| && Ends(es[m]) && es[j].Decide? && AfterShutdown(ss[k])
    ensures |ss[k].published| > 0
    ensures var t, e := ss[k].published[|ss[k].published| - 1], es[m];
            && (e.Receive? && e.message.SaysFinished? ==> t.status == Finished)
            && (ss[j].killed && !(e.Receive? && e.message.SaysFinished?) ==> t.status == Killed)
            && (!ss[j].killed && e.Receive? && e.message.SaysFailed? ==> t.status == Failed && t.msg == e.message.msg)
            && (!ss[j].killed && e.Receive? && e.message.SaysOther? ==> t.status == Lost && t.msg == e.message.msg)
            && (!ss[j].killed && e.Disconnect? ==> t.status == Lost)
            && (!ss[j].killed && e.Prepare? && e.prepared.BadRequest? ==> t == Update(Failed, e.prepared.msg, None))
            && (!ss[j].killed && e.Prepare? && e.prepared.PrepareError? ==> t == Update(Lost, e.prepared.msg, None))
            && (!ss[j].killed && e.Launch? && e.launched.BadEntryPoint? ==>
                  t == Update(Failed, e.launched.msg, e.launched.details))
            && (!ss[j].killed && e.Launch? && e.launched.LaunchError? ==>
                  t == Update(Lost, e.launched.msg, e.launched.details))
            && (e.Receive? || e.Disconnect? ==>
                  exists l :: 0 <= l < m && es[l].Launch? && es[l].launched.Launched? && t.details == Some(es[l].launched.info))
  {
    OutcomeIs(ss, es, m, j, k);
    assert StepAt(ss, es, m);
    if es[m].Receive? || es[m].Disconnect? { DetailsFrom(ss, es, m); }
  }

  /** And a task whose container nothing has ended by the decision was killed, and is reported Killed. */
  lemma KilledIfNotEnded(ss: seq<State>, es: seq<Event>, j: nat, k: nat)
    requires IsRun(ss, es) && j < k < |ss| && es[j].Decide? && AfterShutdown(ss[k])
    requires forall m :: 0 <= m < j ==> !Ends(es[m])
    ensures ss[j].killed && |ss[k].published| > 0 && ss[k].published[|ss[k].published| - 1].status == Killed
  {
    NoEndNoTerminal(ss, es, j);
    ShutdownStatus(ss, es, j, k);
  }
}
