/** What the task runner publishes, for every interleaving. */
module RunnerProofs {
  import opened Option
  import opened RunnerModel

  ghost predicate IsRun(ss: seq<State>, es: seq<Event>) {
    && |ss| == |es| + 1 && ss[0] == Init
    && forall k :: 0 <= k < |es| ==> StepAt(ss, es, k)
  }

  ghost predicate StepAt(ss: seq<State>, es: seq<Event>, k: nat)
    requires k < |es| && |ss| == |es| + 1
  {
    Enabled(ss[k], es[k]) && ss[k + 1] == Step(ss[k], es[k])
  }

  // ---- Stages ----

  predicate Open(g: Stage) { !g.Done? && !g.Broken? }

  /** Stages depend on nothing that comes later. */
  lemma {:induction false} SameStage(us: seq<Update>, us': seq<Update>, k: nat)
    requires k <= |us| && k <= |us'| && forall i :: 0 <= i < k ==> us[i] == us'[i]
    ensures StageAt(us, k) == StageAt(us', k)
  {
    if k > 0 { SameStage(us, us', k - 1); }
  }

  lemma StageAppend(us: seq<Update>, u: Update)
    ensures StageOf(us + [u]) == Next(StageOf(us), u)
  {
    SameStage(us, us + [u], |us|);
  }

  /** A bad entry point: Failed, and Lost right after it. */
  predicate EndsTwice(us: seq<Update>) {
    |us| > 0 && StageAt(us, |us| - 1) == Done(Failed) && us[|us| - 1].status.Lost?
  }

  /** Everything before the end of a well-ordered sequence is well ordered and not terminal. */
  lemma {:induction false} PrefixOpen(us: seq<Update>, k: nat, n: nat)
    requires k < n <= |us| && !StageAt(us, n).Broken?
    ensures Open(StageAt(us, k)) && forall i :: 0 <= i < k ==> !Terminal(us[i])
    decreases n
  {
    if k < n - 1 {
      PrefixOpen(us, k, n - 1);
    } else if k > 0 {
      PrefixOpen(us, k - 1, k);
    }
  }

  // ---- What every step keeps ----

  predicate ProducerOk(s: State) {
    match s.producer
    case Begin => s.sent == []
    case Preparing => StageOf(s.sent).Created?
    case Launching => StageOf(s.sent).Prepared?
    case Monitoring(msg, runningSent, _) => StageOf(s.sent) == if runningSent then Said(msg) else Prepared
    case AlsoLost(_, _) => StageOf(s.sent) == Done(Failed)
    case Closed => StageOf(s.sent).Done? || EndsTwice(s.sent) || (s.killed && Open(StageOf(s.sent)))
  }

  /** The consumer's last update: the first terminal one, or the last one of all when it was killed. */
  predicate LastOk(s: State, last: Update) {
    && 0 < s.taken <= |s.sent| && last == s.sent[s.taken - 1]
    && if Terminal(last) then Before(s, s.taken - 1)
       else Before(s, s.taken) && s.producer.Closed? && s.taken == |s.sent| && s.killed
  }

  /** The first k updates sent are well ordered and not terminal. */
  predicate Before(s: State, k: nat) {
    k <= |s.sent| && Open(StageAt(s.sent, k))
  }

  /** The last status fits the consumer's last update. */
  predicate VerdictOk(s: State, last: Update, t: Update) {
    && Terminal(t) && (last.status.Finished? <==> t.status.Finished?)
    && (t.status.Killed? ==> s.killed)
    && (t.status != last.status ==> t.status.Killed?)
  }

  predicate ConsumerOk(s: State) {
    match s.consumer
    case Reading => Before(s, s.taken) && s.published == s.sent[..s.taken]
    case Holding(u) =>
      && 0 < s.taken && Before(s, s.taken) && u == s.sent[s.taken - 1] && !Terminal(u)
      && s.published == s.sent[..s.taken - 1]
    case ShuttingDown(last) => LastOk(s, last) && s.published == Heard(s, last)
    case Concluding(t) =>
      && 0 < s.taken <= |s.sent|
      && var last := s.sent[s.taken - 1]; LastOk(s, last) && s.published == Heard(s, last) && VerdictOk(s, last, t)
    case Unstarted => s.taken == 0 && s.killed && s.sent == [] && s.producer.Closed? && s.published == []
    case _ => Over(s)
  }

  /** The updates that were published before the shutdown. */
  function Heard(s: State, last: Update): seq<Update>
    requires LastOk(s, last)
  {
    if Terminal(last) then s.sent[..s.taken - 1] else s.sent
  }

  /** After the last status was published. */
  predicate Over(s: State) {
    if s.taken == 0 then
      (s.consumer.Stopped? || s.consumer.Ended?) && s.killed && s.sent == [] && s.producer.Closed? &&
      |s.published| == 1 && s.published[0].status.Lost?
    else
      && s.taken <= |s.sent| && |s.published| > 0
      && var last, t := s.sent[s.taken - 1], s.published[|s.published| - 1];
         LastOk(s, last) && s.published == Heard(s, last) + [t] && VerdictOk(s, last, t)
  }

  /** Why the consumer is where it is at the end. */
  predicate EndOk(s: State) {
    && (s.consumer.Panicked? ==> s.taken < |s.sent|)
    && (s.consumer.Stopped? || s.consumer.Ended? ==> s.taken == |s.sent| && s.producer.Closed?)
  }

  ghost predicate SentOk(s: State) {
    forall i :: 0 <= i < |s.sent| ==> !s.sent[i].status.Killed?
  }

  ghost predicate Inv(s: State) { ProducerOk(s) && SentOk(s) && ConsumerOk(s) && EndOk(s) }

  /** A step of the container's side, of the backend, or a kill. */
  predicate ByOthers(e: Event) {
    !(e.Take? || e.SeeClosed? || e.Decide? || e.Publish? || e.Drain? || e.CloseUpdates?)
  }

  lemma ProducerStep(s: State, e: Event)
    requires ProducerOk(s) && Enabled(s, e)
    ensures ProducerOk(Step(s, e))
  {
    if e.Receive? || e.Disconnect? || e.StopMonitoring? {
      MonitorStep(s, e);
    } else {
      var s' := Step(s, e);
      if |s'.sent| == |s.sent| + 1 {
        Sent(s.sent, s'.sent);
      }
    }
  }

  lemma MonitorStep(s: State, e: Event)
    requires ProducerOk(s) && Enabled(s, e) && (e.Receive? || e.Disconnect? || e.StopMonitoring?)
    ensures ProducerOk(Step(s, e))
  {
    var s' := Step(s, e);
    if |s'.sent| == |s.sent| + 1 {
      Sent(s.sent, s'.sent);
    }
  }

  lemma Sent(us: seq<Update>, us': seq<Update>)
    requires us <= us' && |us'| == |us| + 1
    ensures StageAt(us', |us|) == StageOf(us) && StageOf(us') == Next(StageOf(us), us'[|us|])
  {
    SameStage(us, us', |us|);
  }

  /** They only append, and not after the channel is closed. */
  ghost predicate Appends(s: State, s': State) {
    && s.sent <= s'.sent && s'.taken == s.taken && s'.consumer == s.consumer && s'.published == s.published
    && (s.killed ==> s'.killed) && (s.producer.Closed? ==> s'.producer.Closed? && s'.sent == s.sent)
  }

  lemma OthersAppend(s: State, e: Event)
    requires Enabled(s, e) && ByOthers(e)
    ensures Appends(s, Step(s, e))
  {
  }

  lemma ConsumerKept(s: State, s': State)
    requires ConsumerOk(s) && EndOk(s) && Appends(s, s')
    ensures ConsumerOk(s') && EndOk(s')
  {
    if s.taken <= |s.sent| {
      assert s'.sent[..s.taken] == s.sent[..s.taken];
      SameStage(s.sent, s'.sent, s.taken);
      if s.taken > 0 {
        assert s'.sent[..s.taken - 1] == s.sent[..s.taken - 1];
        SameStage(s.sent, s'.sent, s.taken - 1);
      }
    }
  }

  lemma SentStep(s: State, e: Event)
    requires SentOk(s) && Enabled(s, e)
    ensures SentOk(Step(s, e))
  {
  }

  lemma TakeStep(s: State)
    requires Inv(s) && Enabled(s, Take)
    ensures ConsumerOk(Step(s, Take))
  {
    if !Terminal(s.sent[s.taken]) {
      SentBefore(s, s.taken + 1);
    }
  }

  /** Updates sent up to one that is not terminal are well ordered. */
  lemma SentBefore(s: State, k: nat)
    requires ProducerOk(s) && 0 < k <= |s.sent| && !Terminal(s.sent[k - 1]) && Before(s, k - 1)
    ensures Before(s, k)
  {
    var us, n := s.sent, |s.sent|;
    if !StageOf(us).Broken? {
      if k < n { PrefixOpen(us, k, n); }
    } else if k < n - 1 {
      PrefixOpen(us, k, n - 1);
    }
  }

  lemma ConsumerStep(s: State, e: Event)
    requires Inv(s) && Enabled(s, e) && !ByOthers(e) && !e.Take?
    ensures ConsumerOk(Step(s, e)) && EndOk(Step(s, e))
  {
    assert s.sent[..|s.sent|] == s.sent;
    if e.Decide? {
      DecideStep(s, e);
    } else if e.Publish? {
      PublishStep(s);
    } else if e.SeeClosed? {
      SeeClosedStep(s);
    } else {
      LeaveStep(s, e);
    }
  }

  lemma LeaveStep(s: State, e: Event)
    requires Over(s) && EndOk(s) && Enabled(s, e) && (e.Drain? || e.CloseUpdates?)
    ensures Over(Step(s, e)) && EndOk(Step(s, e))
  {
  }

  lemma DecideStep(s: State, e: Event)
    requires ConsumerOk(s) && SentOk(s) && Enabled(s, e) && e.Decide?
    ensures ConsumerOk(Step(s, e))
  {
  }

  lemma PublishStep(s: State)
    requires ConsumerOk(s) && EndOk(s) && Enabled(s, Publish)
    ensures ConsumerOk(Step(s, Publish)) && EndOk(Step(s, Publish))
  {
    if s.consumer.Holding? {
      assert s.sent[..s.taken] == s.sent[..s.taken - 1] + [s.consumer.update];
    } else {
      assert (s.published + [InHand(s.consumer)])[|s.published|] == InHand(s.consumer);
    }
  }

  lemma SeeClosedStep(s: State)
    requires ProducerOk(s) && ConsumerOk(s) && Enabled(s, SeeClosed) && s.sent[..|s.sent|] == s.sent
    ensures ConsumerOk(Step(s, SeeClosed)) && EndOk(Step(s, SeeClosed))
  {
  }

  lemma InvStep(s: State, e: Event)
    requires Inv(s) && Enabled(s, e)
    ensures Inv(Step(s, e))
  {
    ProducerStep(s, e);
    SentStep(s, e);
    if ByOthers(e) {
      OthersAppend(s, e);
      ConsumerKept(s, Step(s, e));
    } else if e.Take? {
      TakeStep(s);
    } else {
      ConsumerStep(s, e);
    }
  }

  lemma {:induction false} RunInv(ss: seq<State>, es: seq<Event>, k: nat)
    requires IsRun(ss, es) && k < |ss|
    ensures Inv(ss[k])
  {
    if k > 0 {
      RunInv(ss, es, k - 1);
      assert StepAt(ss, es, k - 1);
      InvStep(ss[k - 1], es[k - 1]);
    }
  }

  // ---- The order of what is published ----

  /** At most two Starting, then Running with changing messages, then at most one terminal status. */
  ghost predicate Tidy(us: seq<Update>, a: nat, b: nat) {
    && a <= 2 && a <= b <= |us| <= b + 1 && (a < b ==> a == 2)
    && (forall i :: 0 <= i < a ==> us[i].status.Starting?)
    && (forall i :: a <= i < b ==> us[i].status.Running?)
    && (forall i, j :: a <= i && j == i + 1 < b ==> us[i].msg != us[j].msg)
    && (b < |us| ==> Terminal(us[b]))
  }

  /** The stage of a tidy sequence. */
  ghost predicate Reads(us: seq<Update>, a: nat, b: nat, g: Stage)
    requires Tidy(us, a, b)
  {
    if b < |us| then g == Done(us[b].status)
    else if a < b then g == Said(us[b - 1].msg)
    else g == if a == 0 then Nothing else if a == 1 then Created else Prepared
  }

  /** Stages accept exactly the tidy sequences. */
  lemma StageTidy(us: seq<Update>) returns (a: nat, b: nat)
    requires !StageOf(us).Broken?
    ensures Tidy(us, a, b) && Reads(us, a, b, StageOf(us))
  {
    a, b := TidyUpTo(us, |us|);
    assert us[..|us|] == us;
  }

  lemma {:induction false} TidyUpTo(us: seq<Update>, n: nat) returns (a: nat, b: nat)
    requires n <= |us| && !StageAt(us, n).Broken?
    ensures Tidy(us[..n], a, b) && Reads(us[..n], a, b, StageAt(us, n))
    decreases n
  {
    if n == 0 {
      return 0, 0;
    }
    a, b := TidyUpTo(us, n - 1);
    assert forall i :: 0 <= i < n - 1 ==> us[..n][i] == us[..n - 1][i];
    if us[n - 1].status.Starting? {
      a, b := a + 1, b + 1;
    } else if us[n - 1].status.Running? {
      b := b + 1;
    }
  }

  lemma {:induction false} TidyStage(us: seq<Update>, a: nat, b: nat)
    requires Tidy(us, a, b)
    ensures Reads(us, a, b, StageOf(us))
    decreases |us|
  {
    if us != [] {
      var front, n := us[..|us| - 1], |us| - 1;
      assert forall i :: 0 <= i < |front| ==> us[i] == front[i];
      var fb := if b > n then n else b;
      var fa := if a > n then n else a;
      TidyStage(front, fa, fb);
      SameStage(front, us, n);
    }
  }

  predicate AfterShutdown(s: State) {
    s.consumer.Draining? || StoppedClosed(s)
  }

  /** Whatever the interleaving, what is published is tidy, and has its one terminal status exactly once the
      shutdown is over. */
  lemma PublishedTidy(ss: seq<State>, es: seq<Event>, k: nat) returns (a: nat, b: nat)
    requires IsRun(ss, es) && k < |ss|
    ensures Tidy(ss[k].published, a, b)
    ensures b < |ss[k].published| <==> AfterShutdown(ss[k])
  {
    var s := ss[k];
    RunInv(ss, es, k);
    StagePublished(s);
    a, b := StageTidy(s.published);
  }

  lemma StagePublished(s: State)
    requires ConsumerOk(s)
    ensures !StageOf(s.published).Broken? && (StageOf(s.published).Done? <==> AfterShutdown(s))
  {
    if AfterShutdown(s) {
      StageOver(s);
    } else if s.consumer.ShuttingDown? || s.consumer.Concluding? {
      StageHeard(s, s.sent[s.taken - 1]);
    } else {
      if s.consumer.Holding? { PrefixOpen(s.sent, s.taken - 1, s.taken); }
      SameStage(s.sent, s.published, |s.published|);
    }
  }

  lemma StageHeard(s: State, last: Update)
    requires LastOk(s, last)
    ensures Open(StageOf(Heard(s, last)))
  {
    SameStage(s.sent, Heard(s, last), |Heard(s, last)|);
  }

  lemma StageOver(s: State)
    requires Over(s)
    ensures StageOf(s.published).Done?
  {
    var t := s.published[|s.published| - 1];
    if s.taken == 0 {
      EndsOnce([], t, s.published);
    } else {
      StageHeard(s, s.sent[s.taken - 1]);
      EndsOnce(Heard(s, s.sent[s.taken - 1]), t, s.published);
    }
  }

  lemma EndsOnce(us: seq<Update>, t: Update, all: seq<Update>)
    requires Open(StageOf(us)) && Terminal(t) && all == us + [t]
    ensures StageOf(all) == Done(t.status)
  {
    StageAppend(us, t);
  }

  /** Statuses are only ever added, and none after the terminal one. */
  lemma {:induction false} PublishedGrows(ss: seq<State>, es: seq<Event>, j: nat, k: nat)
    requires IsRun(ss, es) && j <= k < |ss|
    ensures ss[j].published <= ss[k].published
    ensures AfterShutdown(ss[j]) ==> AfterShutdown(ss[k]) && ss[k].published == ss[j].published
  {
    if j < k {
      PublishedGrows(ss, es, j, k - 1);
      RunInv(ss, es, k - 1);
      assert StepAt(ss, es, k - 1);
      PublishedStep(ss[k - 1], es[k - 1]);
    }
  }

  lemma PublishedStep(s: State, e: Event)
    requires ConsumerOk(s) && Enabled(s, e)
    ensures s.published <= Step(s, e).published
    ensures AfterShutdown(s) ==> AfterShutdown(Step(s, e)) && Step(s, e).published == s.published
  {
    if ByOthers(e) {
      OthersAppend(s, e);
    }
  }

  // ---- Which status ends the task ----

  /** How many updates come before the first terminal one. */
  function Progress(us: seq<Update>): (k: nat)
    ensures k <= |us| && (k < |us| ==> Terminal(us[k])) && forall i :: 0 <= i < k ==> !Terminal(us[i])
  {
    if us == [] || Terminal(us[0]) then 0 else Progress(us[1..]) + 1
  }

  /** The first terminal update the container's side sent. */
  function FirstTerminal(us: seq<Update>): Option<Update> {
    if Progress(us) < |us| then Some(us[Progress(us)]) else None
  }

  lemma HeardIs(s: State, last: Update)
    requires LastOk(s, last)
    ensures Progress(s.sent) == |Heard(s, last)|
    ensures FirstTerminal(s.sent) == if Terminal(last) then Some(last) else None
  {
    NoneTerminal(s.sent, |Heard(s, last)|);
  }

  lemma NoneTerminal(us: seq<Update>, k: nat)
    requires k <= |us| && Open(StageAt(us, k))
    ensures forall i :: 0 <= i < k ==> !Terminal(us[i])
  {
    if k > 0 { PrefixOpen(us, k - 1, k); }
  }

  /** What was decided is what gets published, however long the send takes and whatever comes meanwhile. */
  lemma {:induction false} DecisionStands(ss: seq<State>, es: seq<Event>, j: nat, k: nat)
    requires IsRun(ss, es) && j < k < |ss| && es[j].Decide?
    ensures Enabled(ss[j], es[j])
    ensures var t := Verdict(ss[j].consumer.last, ss[j].killed, es[j].errors);
            if AfterShutdown(ss[k]) then ss[k].published == ss[j].published + [t]
            else ss[k].consumer == Concluding(t) && ss[k].published == ss[j].published
  {
    assert StepAt(ss, es, j);
    if j + 1 < k {
      DecisionStands(ss, es, j, k - 1);
      RunInv(ss, es, k - 1);
      assert StepAt(ss, es, k - 1);
      DecisionKept(ss[k - 1], es[k - 1]);
    }
  }

  lemma DecisionKept(s: State, e: Event)
    requires ConsumerOk(s) && Enabled(s, e)
    ensures AfterShutdown(s) ==> AfterShutdown(Step(s, e)) && Step(s, e).published == s.published
    ensures s.consumer.Concluding? ==>
              if e.Publish? then AfterShutdown(Step(s, e)) && Step(s, e).published == s.published + [s.consumer.verdict]
              else Step(s, e).consumer == s.consumer && Step(s, e).published == s.published
  {
    PublishedStep(s, e);
    if ByOthers(e) { OthersAppend(s, e); }
  }

  /** The terminal status is Finished if the container finished, else Killed if the task was killed by the time
      the shutdown decided, else whatever ended the container; a shutdown never finds an unfinished container
      that was not killed. */
  lemma ShutdownStatus(ss: seq<State>, es: seq<Event>, j: nat, k: nat)
    requires IsRun(ss, es) && j < k < |ss| && es[j].Decide? && AfterShutdown(ss[k])
    ensures |ss[k].published| > 0
    ensures var t, first := ss[k].published[|ss[k].published| - 1], FirstTerminal(ss[j].sent);
            && (first.None? ==> ss[j].killed)
            && t.status == (if first.Some? && first.value.status.Finished? then Finished
                            else if ss[j].killed then Killed else first.value.status)
  {
    RunInv(ss, es, j);
    DecisionStands(ss, es, j, k);
    HeardIs(ss[j], ss[j].consumer.last);
  }

  predicate Decided(s: State) { s.consumer.Concluding? || (AfterShutdown(s) && s.taken > 0) }

  lemma {:induction false} DecidedBefore(ss: seq<State>, es: seq<Event>, k: nat) returns (j: nat)
    requires IsRun(ss, es) && k < |ss| && Decided(ss[k])
    ensures j < k && es[j].Decide?
  {
    RunInv(ss, es, k - 1);
    assert StepAt(ss, es, k - 1);
    j := k - 1;
    if !es[j].Decide? {
      DecidedStep(ss[k - 1], es[k - 1]);
      j := DecidedBefore(ss, es, k - 1);
    }
  }

  lemma DecidedStep(s: State, e: Event)
    requires ConsumerOk(s) && Enabled(s, e) && !e.Decide? && Decided(Step(s, e))
    ensures Decided(s)
  {
    if ByOthers(e) { OthersAppend(s, e); }
  }

  /** A task that ends without any decision was killed before it was created, and is reported Lost. */
  lemma NeverCreated(ss: seq<State>, es: seq<Event>, k: nat)
    requires IsRun(ss, es) && k < |ss| && AfterShutdown(ss[k]) && forall j :: 0 <= j < k ==> !es[j].Decide?
    ensures ss[k].killed && ss[k].sent == [] && |ss[k].published| == 1 && ss[k].published[0].status.Lost?
  {
    RunInv(ss, es, k);
    if ss[k].taken > 0 {
      var j := DecidedBefore(ss, es, k);
    }
  }

  // ---- The panic ----

  predicate BadLaunch(e: Event) { e.Launch? && e.launched.BadEntryPoint? }

  lemma {:induction false} EndsTwiceAfter(ss: seq<State>, es: seq<Event>, k: nat)
    requires IsRun(ss, es) && k < |ss|
    ensures (exists j :: 0 <= j < k && BadLaunch(es[j])) <==> ss[k].producer.AlsoLost? || EndsTwice(ss[k].sent)
  {
    if k > 0 {
      EndsTwiceAfter(ss, es, k - 1);
      RunInv(ss, es, k - 1);
      assert StepAt(ss, es, k - 1);
      EndsTwiceStep(ss[k - 1], es[k - 1]);
    }
  }

  lemma EndsTwiceStep(s: State, e: Event)
    requires ProducerOk(s) && Enabled(s, e)
    ensures (Step(s, e).producer.AlsoLost? || EndsTwice(Step(s, e).sent)) <==>
            (s.producer.AlsoLost? || EndsTwice(s.sent) || BadLaunch(e))
  {
    if Step(s, e).sent == s.sent {
      SentNone(s, e);
    } else {
      SentOne(s, e);
      NotTwiceYet(s);
      TwiceNow(s.sent, Step(s, e).sent);
    }
  }

  lemma SentNone(s: State, e: Event)
    requires Enabled(s, e) && Step(s, e).sent == s.sent
    ensures Step(s, e).producer.AlsoLost? == s.producer.AlsoLost? && !BadLaunch(e)
  {
  }

  lemma SentOne(s: State, e: Event)
    requires Enabled(s, e) && Step(s, e).sent != s.sent
    ensures s.sent <= Step(s, e).sent && |Step(s, e).sent| == |s.sent| + 1 && !s.producer.Closed?
    ensures Step(s, e).producer.AlsoLost? <==> BadLaunch(e)
    ensures s.producer.AlsoLost? ==> Step(s, e).sent[|s.sent|].status.Lost?
  {
  }

  lemma NotTwiceYet(s: State)
    requires ProducerOk(s) && !s.producer.Closed?
    ensures !EndsTwice(s.sent) && (StageOf(s.sent) == Done(Failed) <==> s.producer.AlsoLost?)
  {
    assert EndsTwice(s.sent) ==> StageOf(s.sent) == Next(StageAt(s.sent, |s.sent| - 1), s.sent[|s.sent| - 1]);
  }

  lemma TwiceNow(us: seq<Update>, us': seq<Update>)
    requires us <= us' && |us'| == |us| + 1
    ensures EndsTwice(us') <==> StageOf(us) == Done(Failed) && us'[|us|].status.Lost?
  {
    SameStage(us, us', |us|);
  }

  /** The runner panics instead of stopping exactly when the container could not be launched because of
      its entry point. */
  lemma PanicsExactly(ss: seq<State>, es: seq<Event>, k: nat)
    requires IsRun(ss, es) && k < |ss| && StoppedClosed(ss[k])
    ensures ss[k].consumer.Panicked? <==> exists j :: 0 <= j < k && BadLaunch(es[j])
  {
    var s := ss[k];
    RunInv(ss, es, k);
    EndsTwiceAfter(ss, es, k);
    if s.consumer.Panicked? && !StageOf(s.sent).Broken? {
      PrefixOpen(s.sent, s.taken, |s.sent|);
    }
  }
}
