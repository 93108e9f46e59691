/** The backend beside the runner: which statuses it gets to write, and when the runner can no longer stop
    because the backend has stopped reading. */
module RunnerBackend {
  import opened Option
  import opened RunnerModel
  import opened RunnerProofs

  // ---- What every step keeps ----

  /** Neither channel ever holds more than it can, a backend whose context is done has killed the task, and it
      only returns once the runner has stopped. */
  ghost predicate BackendOk(s: State) {
    && |s.sent| <= s.taken + CAPACITY && s.read <= |s.published| <= s.read + CAPACITY
    && (s.backend.Waiting? ==> s.killed) && (s.backend.Returned? ==> StoppedClosed(s))
  }

  lemma BackendStep(s: State, e: Event)
    requires ConsumerOk(s) && BackendOk(s) && Enabled(s, e)
    ensures BackendOk(Step(s, e))
  {
    QueueStep(s, e);
    if ByOthers(e) { OthersAppend(s, e); }
  }

  lemma QueueStep(s: State, e: Event)
    requires Enabled(s, e) && |s.sent| <= s.taken + CAPACITY
    ensures |Step(s, e).sent| <= Step(s, e).taken + CAPACITY
  {
  }

  lemma {:induction false} RunBackend(ss: seq<State>, es: seq<Event>, k: nat)
    requires IsRun(ss, es) && k < |ss|
    ensures BackendOk(ss[k])
  {
    if k > 0 {
      RunBackend(ss, es, k - 1);
      RunInv(ss, es, k - 1);
      assert StepAt(ss, es, k - 1);
      BackendStep(ss[k - 1], es[k - 1]);
    }
  }

  // ---- The status that is never written ----

  /** The select takes StoppedChan or the context while statuses are queued or the last one is still to come. */
  predicate Abandons(s: State, e: Event) {
    (e.SeeStopped? || e.ContextDone?) && (s.read < |s.published| || !AfterShutdown(s))
  }

  /** The backend will not read everything that is published. */
  predicate Misses(s: State) {
    !s.backend.Listening? && (s.read < |s.published| || !AfterShutdown(s))
  }

  lemma MissesStep(s: State, e: Event)
    requires Inv(s) && BackendOk(s) && Enabled(s, e)
    ensures Misses(Step(s, e)) <==> Misses(s) || Abandons(s, e)
  {
    PublishedStep(s, e);
    BackendMoves(s, e);
  }

  lemma BackendMoves(s: State, e: Event)
    requires BackendOk(s) && Enabled(s, e)
    ensures var s' := Step(s, e);
            && (!s.backend.Listening? ==> !s'.backend.Listening? && s'.read == s.read && !Abandons(s, e))
            && (s.backend.Listening? ==> (!s'.backend.Listening? <==> e.SeeUpdatesClosed? || e.SeeStopped? || e.ContextDone?))
            && (e.SeeUpdatesClosed? || e.SeeStopped? || e.ContextDone? ==>
                  s'.read == s.read && s'.published == s.published && s'.consumer == s.consumer)
            && (!AfterShutdown(s) && AfterShutdown(s') ==> |s'.published| > |s.published|)
  {
  }

  lemma {:induction false} MissesAfter(ss: seq<State>, es: seq<Event>, k: nat)
    requires IsRun(ss, es) && k < |ss|
    ensures Misses(ss[k]) <==> exists j :: 0 <= j < k && Abandons(ss[j], es[j])
  {
    if k > 0 {
      MissesAfter(ss, es, k - 1);
      RunInv(ss, es, k - 1);
      RunBackend(ss, es, k - 1);
      assert StepAt(ss, es, k - 1);
      MissesStep(ss[k - 1], es[k - 1]);
    }
  }

  /** When the backend has returned, the one terminal status of the task was published, and it was never
      written, exactly if the backend's select took StoppedChan or its context while statuses were queued
      or the terminal one was still to come. */
  lemma TerminalLostExactly(ss: seq<State>, es: seq<Event>, k: nat)
    requires IsRun(ss, es) && k < |ss| && ss[k].backend.Returned?
    ensures var us := ss[k].published;
            && us != [] && Terminal(us[|us| - 1]) && ss[k].read <= |us|
            && ((forall i :: 0 <= i < ss[k].read ==> !Terminal(us[i])) <==>
                exists j :: 0 <= j < k && Abandons(ss[j], es[j]))
  {
    var us := ss[k].published;
    RunInv(ss, es, k);
    RunBackend(ss, es, k);
    StagePublished(ss[k]);
    var a, b := StageTidy(us);
    MissesAfter(ss, es, k);
    assert forall i :: 0 <= i < |us| - 1 ==> !Terminal(us[i]);
  }

  // ---- The runner that cannot stop ----

  /** How many statuses must still be published before the terminal one. */
  function Pending(s: State): nat
    requires s.taken <= |s.sent|
  {
    if s.consumer.Reading? then Progress(s.sent[s.taken..])
    else if s.consumer.Holding? then 1 + Progress(s.sent[s.taken..])
    else 0
  }

  /** Nobody reads UpdatesChan any more, and it has no room for what must still go into it. */
  predicate Blocked(s: State) {
    && s.taken <= |s.sent| && s.backend.Waiting? && !AfterShutdown(s)
    && |s.published| - s.read + Pending(s) + 1 > CAPACITY
  }

  lemma {:induction false} ProgressGrows(us: seq<Update>, u: Update)
    ensures Progress(us + [u]) >= Progress(us)
    ensures Terminal(u) ==> Progress(us + [u]) == Progress(us)
  {
    if us != [] && !Terminal(us[0]) {
      assert (us + [u])[1..] == us[1..] + [u];
      ProgressGrows(us[1..], u);
    }
  }

  /** Sending can only add to what must still be published. */
  lemma PendingAppends(s: State, s': State)
    requires s.taken <= |s.sent| && s.sent <= s'.sent && |s'.sent| <= |s.sent| + 1
    requires s'.taken == s.taken && s'.consumer == s.consumer
    ensures Pending(s') >= Pending(s)
    ensures |s'.sent| > |s.sent| && Terminal(s'.sent[|s.sent|]) ==> Pending(s') == Pending(s)
  {
    if |s'.sent| > |s.sent| {
      assert s'.sent[s.taken..] == s.sent[s.taken..] + [s'.sent[|s.sent|]];
      ProgressGrows(s.sent[s.taken..], s'.sent[|s.sent|]);
    } else {
      assert s'.sent == s.sent;
    }
  }

  lemma BlockedStep(s: State, e: Event)
    requires Blocked(s) && Enabled(s, e) && ConsumerOk(s) && s.read <= |s.published|
    ensures Blocked(Step(s, e))
  {
    if ByOthers(e) {
      OthersAppend(s, e);
      SendsOne(s, e);
      PendingAppends(s, Step(s, e));
    } else {
      BlockedConsumer(s, e);
    }
  }

  lemma SendsOne(s: State, e: Event)
    requires Enabled(s, e)
    ensures |Step(s, e).sent| <= |s.sent| + 1
    ensures s.backend.Waiting? && !StoppedClosed(s) ==> Step(s, e).backend == s.backend && Step(s, e).read == s.read
  {
  }

  lemma BlockedConsumer(s: State, e: Event)
    requires Blocked(s) && Enabled(s, e) && s.read <= |s.published| && !ByOthers(e)
    requires s.consumer.Reading? && s.sent == [] ==> s.published == []
    ensures Blocked(Step(s, e))
  {
    if s.taken < |s.sent| {
      assert s.sent[s.taken..][0] == s.sent[s.taken];
      assert s.sent[s.taken..][1..] == s.sent[s.taken + 1..];
    } else {
      assert s.sent[s.taken..] == [];
    }
  }

  /** Once blocked, the runner never stops and the backend never returns. */
  lemma {:induction false} BlockedForever(ss: seq<State>, es: seq<Event>, j: nat, k: nat)
    requires IsRun(ss, es) && j <= k < |ss| && Blocked(ss[j])
    ensures Blocked(ss[k]) && !StoppedClosed(ss[k]) && ss[k].backend.Waiting?
  {
    if j < k {
      BlockedForever(ss, es, j, k - 1);
      StaysBlocked(ss, es, k - 1);
    }
  }

  lemma StaysBlocked(ss: seq<State>, es: seq<Event>, k: nat)
    requires IsRun(ss, es) && k < |es| && Blocked(ss[k])
    ensures Blocked(ss[k + 1])
  {
    RunInv(ss, es, k);
    RunBackend(ss, es, k);
    assert StepAt(ss, es, k);
    BlockedStep(ss[k], es[k]);
  }

  // ---- The runner that can ----

  /** What the container's side does next if the container fails at the first opportunity. */
  function GivingUp(s: State): Event
    requires !s.producer.Closed?
  {
    match s.producer
    case Begin => if s.killed then GiveUp else Create
    case Preparing => Prepare(PrepareError(""))
    case Launching => Launch(LaunchError("", None))
    case Monitoring(_, _, _) => Disconnect
    case AlsoLost(_, _) => SendLost
  }

  /** A next step towards the end. */
  function Onwards(s: State): Event
    requires !StoppedClosed(s) && s.taken <= |s.sent|
  {
    if Publishes(s.consumer) then if RoomOut(s) then Publish else Listen
    else if s.consumer.ShuttingDown? then Decide(Errors(false, false, false, ""))
    else if s.consumer.Reading? && s.taken < |s.sent| then Take
    else if s.taken == |s.sent| && !s.producer.Closed? then GivingUp(s)
    else if s.consumer.Reading? then SeeClosed else Drain
  }

  function ProducerRank(p: Producer): nat {
    match p
    case Begin => 3
    case Preparing => 2
    case Launching => 2
    case Monitoring(_, _, _) => 2
    case AlsoLost(_, _) => 1
    case Closed => 0
  }

  function ConsumerRank(c: Consumer): nat {
    match c
    case Holding(_) => 6
    case Reading => 5
    case ShuttingDown(_) => 4
    case Concluding(_) => 3
    case Unstarted => 2
    case Draining => 1
    case _ => 0
  }

  lemma OnwardsEnabled(s: State)
    requires Inv(s) && BackendOk(s) && !StoppedClosed(s) && !Blocked(s) && s.taken <= |s.sent|
    ensures Enabled(s, Onwards(s))
  {
  }

  lemma OnwardsUnblocked(s: State)
    requires Inv(s) && BackendOk(s) && !StoppedClosed(s) && !Blocked(s) && s.taken <= |s.sent| && Enabled(s, Onwards(s))
    ensures !Blocked(Step(s, Onwards(s)))
  {
    if s.consumer.Reading? && s.taken < |s.sent| {
      TakeUnblocked(s);
    } else if s.consumer.Reading? && !s.producer.Closed? {
      GivingUpUnblocked(s);
    }
  }

  lemma TakeUnblocked(s: State)
    requires Enabled(s, Take) && s.read <= |s.published| && !Blocked(s)
    ensures !Blocked(Step(s, Take))
  {
    assert s.sent[s.taken..][0] == s.sent[s.taken];
    assert s.sent[s.taken..][1..] == s.sent[s.taken + 1..];
  }

  lemma GivingUpUnblocked(s: State)
    requires s.consumer.Reading? && s.taken == |s.sent| && !s.producer.Closed? && !Blocked(s)
    requires (s.backend.Waiting? ==> s.killed) && Enabled(s, GivingUp(s))
    ensures !Blocked(Step(s, GivingUp(s)))
  {
    var s' := Step(s, GivingUp(s));
    assert s.sent[s.taken..] == [];
    if s'.sent != s.sent {
      assert s'.sent[s.taken..] == [s'.sent[|s.sent|]];
    }
  }

  /** It ends the container's side, empties a channel or brings the shutdown closer. */
  lemma OnwardsCloser(s: State)
    requires !StoppedClosed(s) && s.taken <= |s.sent| && Enabled(s, Onwards(s))
    ensures var s' := Step(s, Onwards(s));
            var p, p', q, q' := ProducerRank(s.producer), ProducerRank(s'.producer),
                                |s.sent| - s.taken, |s'.sent| - s'.taken;
            var c, c', u, u' := ConsumerRank(s.consumer), ConsumerRank(s'.consumer),
                                |s.published| - s.read, |s'.published| - s'.read;
            p' < p || (p' == p && (q' < q || (q' == q && (c' < c || (c' == c && u' < u)))))
  {
  }

  /** States and events that lead from s on. */
  ghost predicate Leads(s: State, ss: seq<State>, es: seq<Event>) {
    && |ss| == |es| + 1 && ss[0] == s
    && forall k :: 0 <= k < |es| ==> StepAt(ss, es, k)
  }

  lemma TakenIn(s: State)
    requires ConsumerOk(s)
    ensures s.taken <= |s.sent|
  {
  }

  /** From every state that is not blocked the runner can still stop. */
  lemma {:induction false} CanStop(s: State) returns (ss: seq<State>, es: seq<Event>)
    requires Inv(s) && BackendOk(s) && !Blocked(s)
    ensures Leads(s, ss, es) && StoppedClosed(ss[|es|])
    decreases ProducerRank(s.producer), |s.sent| - s.taken, ConsumerRank(s.consumer), |s.published| - s.read
  {
    TakenIn(s);
    if StoppedClosed(s) {
      return [s], [];
    }
    var e := Onwards(s);
    OnwardsEnabled(s);
    OnwardsUnblocked(s);
    OnwardsCloser(s);
    InvStep(s, e);
    BackendStep(s, e);
    TakenIn(Step(s, e));
    ss, es := CanStop(Step(s, e));
    ss, es := Prepend(s, e, ss, es);
  }

  lemma Prepend(s: State, e: Event, ss: seq<State>, es: seq<Event>) returns (ss': seq<State>, es': seq<Event>)
    requires Enabled(s, e) && Leads(Step(s, e), ss, es)
    ensures Leads(s, ss', es') && ss'[|es'|] == ss[|es|]
  {
    ss', es' := [s] + ss, [e] + es;
    forall k | 0 <= k < |es'| ensures StepAt(ss', es', k) {
      if k > 0 { assert StepAt(ss, es, k - 1); }
    }
  }

  /** A run can be continued until the runner has stopped, exactly if it is not blocked. */
  lemma StopsUnlessBlocked(ss: seq<State>, es: seq<Event>)
    requires IsRun(ss, es)
    ensures !Blocked(ss[|es|]) <==>
            exists ss', es' :: IsRun(ss', es') && ss <= ss' && es <= es' && StoppedClosed(ss'[|es'|])
  {
    var n := |es|;
    RunInv(ss, es, n);
    RunBackend(ss, es, n);
    if Blocked(ss[n]) {
      forall ss', es' | IsRun(ss', es') && ss <= ss' && es <= es' ensures !StoppedClosed(ss'[|es'|]) {
        BlockedForever(ss', es', n, |es'|);
      }
    } else {
      var more, events := CanStop(ss[n]);
      var ss', es' := ss + more[1..], es + events;
      forall k | 0 <= k < |es'| ensures StepAt(ss', es', k) {
        if k < n { assert StepAt(ss, es, k); } else { assert StepAt(more, events, k - n); }
      }
      assert StoppedClosed(ss'[|es'|]);
    }
  }
}
