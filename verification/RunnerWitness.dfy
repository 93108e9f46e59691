/** Runs of the task runner: one that ends as it should, one that is killed, and runs that go wrong: one that panics,
    one where a kill comes too late for the verdict, two whose terminal status is never written, and one that can
    never stop. */
module RunnerWitness {
  import opened Option
  import opened RunnerModel
  import opened RunnerProofs
  import opened RunnerBackend

  ghost predicate Reaches(ss: seq<State>, es: seq<Event>, s: State) {
    IsRun(ss, es) && ss[|es|] == s
  }

  lemma Extend(ss: seq<State>, es: seq<Event>, s: State, e: Event) returns (ss': seq<State>, es': seq<Event>)
    requires Reaches(ss, es, s) && Enabled(s, e)
    ensures Reaches(ss', es', Step(s, e)) && es' == es + [e] && ss' == ss + [Step(s, e)]
  {
    ss', es' := ss + [Step(s, e)], es + [e];
    forall k | 0 <= k < |es'| ensures StepAt(ss', es', k) {
      if k < |es| { assert StepAt(ss, es, k); }
    }
  }

  const CREATING := Update(Starting, "creating", None)
  const STARTING := Update(Starting, "starting", None)

  /** The container is ready to be launched, and nothing was read yet. */
  const READY := State(Launching, [CREATING, STARTING], 0, false, Reading, [], Listening, 0)

  lemma ReachReady() returns (ss: seq<State>, es: seq<Event>)
    ensures Reaches(ss, es, READY)
  {
    ss, es := Extend([Init], [], Init, Create);
    ss, es := Extend(ss, es, Step(Init, Create), Prepare(Ready));
    assert Step(Step(Init, Create), Prepare(Ready)) == READY;
  }

  /** The next update, which is not terminal, is taken and published. */
  lemma PassOn(ss: seq<State>, es: seq<Event>, s: State) returns (ss': seq<State>, es': seq<Event>)
    requires Reaches(ss, es, s) && Enabled(s, Take) && !Terminal(s.sent[s.taken]) && RoomOut(s)
    ensures Reaches(ss', es', s.(taken := s.taken + 1, published := s.published + [s.sent[s.taken]]))
  {
    ss', es' := Extend(ss, es, s, Take);
    ss', es' := Extend(ss', es', Step(s, Take), Publish);
  }

  lemma ReachLaunching() returns (ss: seq<State>, es: seq<Event>)
    ensures Reaches(ss, es, READY.(taken := 2, published := [CREATING, STARTING]))
  {
    ss, es := ReachReady();
    ss, es := PassOn(ss, es, READY);
    ss, es := PassOn(ss, es, READY.(taken := 1, published := [CREATING]));
    assert [CREATING] + [STARTING] == [CREATING, STARTING];
  }

  const NO_ERRORS := Errors(false, false, false, "")

  /** The container is launched, everything sent was published, and it is monitored. */
  lemma ReachMonitoring(d: Details) returns (ss: seq<State>, es: seq<Event>, s: State)
    ensures Reaches(ss, es, s)
    ensures s == READY.(taken := 2, published := [CREATING, STARTING], producer := Monitoring("", false, d))
  {
    ss, es := ReachLaunching();
    s := READY.(taken := 2, published := [CREATING, STARTING]);
    ss, es := Extend(ss, es, s, Launch(Launched(d)));
    s := s.(producer := Monitoring("", false, d));
  }

  /** From a shutdown that was entered with the last update taken: it decides, publishes and stops. */
  lemma WindUp(ss: seq<State>, es: seq<Event>, s: State) returns (ss': seq<State>, es': seq<Event>, s': State)
    requires Reaches(ss, es, s) && s.consumer.ShuttingDown? && s.taken == |s.sent| && s.producer.Closed? && RoomOut(s)
    ensures Reaches(ss', es', s') && es <= es' && s'.backend == s.backend && s'.read == s.read && s'.killed == s.killed
    ensures s'.consumer.Ended? && s'.published == s.published + [Verdict(s.consumer.last, s.killed, NO_ERRORS)]
  {
    var t := Verdict(s.consumer.last, s.killed, NO_ERRORS);
    ss', es' := Extend(ss, es, s, Decide(NO_ERRORS));
    s' := s.(consumer := Concluding(t));
    ss', es' := Extend(ss', es', s', Publish);
    s' := s'.(consumer := Draining, published := s.published + [t]);
    ss', es' := Extend(ss', es', s', Drain);
    s' := s'.(consumer := Stopped);
    ss', es' := Extend(ss', es', s', CloseUpdates);
    s' := s'.(consumer := Ended);
  }

  /** A container that finishes: the task ends Finished, with the container's message and details. */
  lemma TaskCanFinish(msg: string, d: Details) returns (ss: seq<State>, es: seq<Event>, s: State)
    requires msg != ""
    ensures Reaches(ss, es, s) && s.consumer.Ended? && !s.killed
    ensures |s.published| == 3 && s.published[2] == Update(Finished, msg, Some(d))
  {
    ss, es, s := ReachMonitoring(d);
    var done := Update(Finished, msg, Some(d));
    ss, es := Extend(ss, es, s, Receive(SaysFinished(msg)));
    s := s.(sent := s.sent + [done], producer := Closed);
    ss, es := Extend(ss, es, s, Take);
    s := s.(taken := 3, consumer := ShuttingDown(done));
    ss, es, s := WindUp(ss, es, s);
  }

  /** A running container whose task is killed: the task ends Killed. */
  lemma TaskCanBeKilled(d: Details) returns (ss: seq<State>, es: seq<Event>, s: State)
    ensures Reaches(ss, es, s) && s.consumer.Ended? && StopMonitoring in es
    ensures |s.published| == 3 && s.published[2].status.Killed?
  {
    ss, es, s := ReachMonitoring(d);
    ss, es := Extend(ss, es, s, Kill);
    s := s.(killed := true);
    ss, es := Extend(ss, es, s, StopMonitoring);
    s := s.(producer := Closed);
    ss, es := Extend(ss, es, s, SeeClosed);
    s := s.(consumer := ShuttingDown(STARTING));
    var n := |es| - 2;
    assert es[n] == StopMonitoring;
    ss, es, s := WindUp(ss, es, s);
    assert es[n] == StopMonitoring;
  }

  /** A container fails, the shutdown decides so, and a kill that comes while the status is still being sent does
      not change it any more. */
  lemma KillCanComeTooLate() returns (ss: seq<State>, es: seq<Event>, s: State)
    ensures Reaches(ss, es, s) && |s.published| == 3 && s.published[2].status.Failed?
    ensures |es| >= 2 && es[|es| - 2].Kill? && es[|es| - 1].Publish?
  {
    ss, es := ReachLaunching();
    s := READY.(taken := 2, published := [CREATING, STARTING]);
    var failed := Update(Failed, "bad", None);
    ss, es := Extend(ss, es, s, Launch(BadEntryPoint("bad", None)));
    s := s.(producer := AlsoLost("bad", None), sent := [CREATING, STARTING, failed]);
    ss, es := Extend(ss, es, s, Take);
    s := s.(taken := 3, consumer := ShuttingDown(failed));
    ss, es := Extend(ss, es, s, Decide(NO_ERRORS));
    s := s.(consumer := Concluding(failed));
    ss, es := Extend(ss, es, s, Kill);
    s := s.(killed := true);
    ss, es := Extend(ss, es, s, Publish);
    s := s.(published := s.published + [failed], consumer := Draining);
  }

  /** A bad entry point is reported Failed and then Lost, and the runner panics over the second report. */
  lemma RunnerCanPanic() returns (ss: seq<State>, es: seq<Event>, s: State)
    ensures Reaches(ss, es, s) && s.consumer.Panicked?
    ensures |s.published| == 3 && s.published[2].status.Failed?
  {
    ss, es := ReachLaunching();
    var failed := Update(Failed, "bad", None);
    var s0 := READY.(taken := 2, published := [CREATING, STARTING]);
    ss, es := Extend(ss, es, s0, Launch(BadEntryPoint("bad", None)));
    var s1 := s0.(producer := AlsoLost("bad", None), sent := [CREATING, STARTING, failed]);
    assert Step(s0, Launch(BadEntryPoint("bad", None))) == s1;
    ss, es := Extend(ss, es, s1, SendLost);
    var s2 := s1.(producer := Closed, sent := s1.sent + [Update(Lost, "bad", None)]);
    ss, es := Extend(ss, es, s2, Take);
    var s3 := s2.(taken := 3, consumer := ShuttingDown(failed));
    assert Step(s2, Take) == s3;
    ss, es := Extend(ss, es, s3, Decide(NO_ERRORS));
    var s4 := s3.(consumer := Concluding(failed));
    assert Step(s3, Decide(NO_ERRORS)) == s4;
    ss, es := Extend(ss, es, s4, Publish);
    s := s4.(consumer := Draining, published := s4.published + [failed]);
    ss, es := Extend(ss, es, s, Drain);
    s := s.(consumer := Panicked);
  }

  /** A task that is killed before it is created: the runner reports it Lost and stops. */
  lemma NeverStarts(ss: seq<State>, es: seq<Event>, s: State) returns (ss': seq<State>, es': seq<Event>, s': State)
    requires Reaches(ss, es, s) && s == Init.(killed := true, backend := s.backend)
    ensures s' == s.(producer := Closed, consumer := Stopped, published := [InHand(Unstarted)])
    ensures Reaches(ss', es', s') && es' == es + [GiveUp, SeeClosed, Publish]
  {
    ss', es' := Extend(ss, es, s, GiveUp);
    s' := s.(producer := Closed);
    ss', es' := Extend(ss', es', s', SeeClosed);
    s' := s'.(consumer := Unstarted);
    ss', es' := Extend(ss', es', s', Publish);
    s' := s'.(consumer := Stopped, published := [InHand(Unstarted)]);
  }

  /** The runner has closed StoppedChan and not yet UpdatesChan, with its one status unread, and the
      backend's select takes the former. */
  lemma TerminalCanBeLost() returns (ss: seq<State>, es: seq<Event>, s: State)
    ensures Reaches(ss, es, s) && s.backend.Returned? && s.read == 0
    ensures |s.published| == 1 && s.published[0].status.Lost? && es != [] && es[|es| - 1].SeeStopped?
  {
    ss, es := Extend([Init], [], Init, Kill);
    ss, es, s := NeverStarts(ss, es, Init.(killed := true));
    ss, es := Extend(ss, es, s, SeeStopped);
    s := Step(s, SeeStopped);
  }

  /** The backend's context is done before the runner has published anything, and it waits for the runner's end
      without reading. */
  lemma ContextCanLoseTheStatus() returns (ss: seq<State>, es: seq<Event>, s: State)
    ensures Reaches(ss, es, s) && s.backend.Returned? && s.read == 0
    ensures |s.published| == 1 && s.published[0].status.Lost? && SeeStopped !in es
  {
    ss, es := Extend([Init], [], Init, ContextDone);
    ss, es, s := NeverStarts(ss, es, Init.(killed := true, backend := Waiting));
    ss, es := Extend(ss, es, s, WaitOver);
    s := Step(s, WaitOver);
  }

  // ---- The runner that cannot stop ----

  /** The messages that a container may alternate between. */
  function Text(n: nat): string { if n % 2 == 0 then "a" else "b" }

  /** A running container has had n statuses published and none of them read. */
  ghost predicate Unread(s: State, n: nat) {
    && s.producer.Monitoring? && s.producer.runningSent && s.producer.lastMessage == Text(n)
    && s.consumer.Reading? && s.taken == |s.sent| && |s.published| == n && s.backend.Listening? && s.read == 0
  }

  lemma {:induction false} ReachUnread(n: nat) returns (ss: seq<State>, es: seq<Event>)
    requires 3 <= n <= CAPACITY
    ensures IsRun(ss, es) && Unread(ss[|es|], n)
  {
    var s;
    if n == 3 {
      ss, es := ReachLaunching();
      s := READY.(taken := 2, published := [CREATING, STARTING]);
      ss, es := Extend(ss, es, s, Launch(Launched(0)));
      s := Step(s, Launch(Launched(0)));
    } else {
      ss, es := ReachUnread(n - 1);
      s := ss[|es|];
    }
    ss, es := OneMore(ss, es, s, n);
  }

  lemma OneMore(ss: seq<State>, es: seq<Event>, s: State, n: nat) returns (ss': seq<State>, es': seq<Event>)
    requires Reaches(ss, es, s) && s.producer.Monitoring? && s.consumer.Reading? && s.taken == |s.sent| && n <= CAPACITY
    requires |s.published| == n - 1 && s.backend.Listening? && s.read == 0
    requires s.producer.runningSent ==> s.producer.lastMessage != Text(n)
    ensures IsRun(ss', es') && Unread(ss'[|es'|], n)
  {
    var say := Receive(SaysRunning(Text(n)));
    ss', es' := Extend(ss, es, s, say);
    var s' := Step(s, say);
    ss', es' := PassOn(ss', es', s');
  }

  /** With ten statuses unread when its context is done, the backend waits for a runner that waits for room
      in the channel. */
  lemma RunnerCanBlock() returns (ss: seq<State>, es: seq<Event>)
    ensures IsRun(ss, es) && Blocked(ss[|es|]) && |ss[|es|].published| == 10 && ss[|es|].read == 0
  {
    ss, es := ReachUnread(CAPACITY);
    ss, es := Extend(ss, es, ss[|es|], ContextDone);
  }
}
