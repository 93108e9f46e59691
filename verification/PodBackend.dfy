/** The pod status that the Kubernetes backend derives from the published task statuses. */
module PodBackend {
  import opened Option
  import opened RunnerModel
  import opened RunnerProofs
  import opened RunnerBackend
  import opened RunnerLoops

  type Time = int

  datatype Phase = Pending | PodRunning | Succeeded | PodFailed

  datatype ContainerState = Waiting | RunningSince(startedAt: Time) | Terminated(start: Option<Time>, finishedAt: Time)

  /** Before the first update the pod has no container status. */
  datatype PodStatus = PodStatus(phase: Option<Phase>, reason: Option<Status>, message: string,
                                 details: Option<Details>, container: Option<ContainerState>)

  const Unset := PodStatus(None, None, "", None, None)

  function PhaseOf(s: Status): Phase {
    match s
    case Starting => Pending
    case Running => PodRunning
    case Finished => Succeeded
    case Failed => PodFailed
    case Killed => PodFailed
    case Lost => PodFailed
  }

  /** state2containerState: a terminated container keeps the start of the running one before it. */
  function ContainerAfter(prev: Option<ContainerState>, s: Status, now: Time): ContainerState {
    match s
    case Starting => ContainerState.Waiting
    case Running => RunningSince(now)
    case _ => Terminated(if prev.Some? && prev.value.RunningSince? then Some(prev.value.startedAt) else None, now)
  }

  function StatusAfter(prev: PodStatus, u: Update, now: Time): PodStatus {
    PodStatus(Some(PhaseOf(u.status)), Some(u.status), u.msg, if u.details.Some? then u.details else prev.details,
              Some(ContainerAfter(prev.container, u.status, now)))
  }

  /** The pod status after the first k updates, each handled at its own time. */
  function StatusAt(us: seq<Update>, clock: nat -> Time, k: nat): PodStatus
    requires k <= |us|
  {
    if k == 0 then Unset else StatusAfter(StatusAt(us, clock, k - 1), us[k - 1], clock(k - 1))
  }

  /** The cases of the update loop's select. */
  datatype Choice = TakeUpdate | TakeClosed | TakeStopped | TakeContextDone

  /** The choices that the backend makes in a run. */
  function Choices(es: seq<Event>): seq<Choice> {
    if es == [] then []
    else
      var before := Choices(es[..|es| - 1]);
      match es[|es| - 1]
      case Listen => before + [TakeUpdate]
      case SeeUpdatesClosed => before + [TakeClosed]
      case SeeStopped => before + [TakeStopped]
      case ContextDone => before + [TakeContextDone]
      case _ => before
  }

  /** It takes updates, as many as it has read, until one other choice ends the loop. */
  ghost predicate ChoicesOk(s: State, choices: seq<Choice>) {
    && |choices| == s.read + (if s.backend.Listening? then 0 else 1)
    && forall i :: 0 <= i < |choices| ==> (choices[i].TakeUpdate? <==> i < s.read)
  }

  lemma {:induction false} ChoicesUpTo(ss: seq<State>, es: seq<Event>, k: nat)
    requires IsRun(ss, es) && k < |ss|
    ensures ChoicesOk(ss[k], Choices(es[..k]))
  {
    if k > 0 {
      ChoicesUpTo(ss, es, k - 1);
      assert es[..k][..k - 1] == es[..k - 1];
      assert StepAt(ss, es, k - 1);
      ChoiceMade(ss[k - 1], es[k - 1]);
    }
  }

  lemma ChoiceMade(s: State, e: Event)
    requires Enabled(s, e)
    ensures Step(s, e).read == if e.Listen? then s.read + 1 else s.read
    ensures e.Listen? || e.SeeUpdatesClosed? || e.SeeStopped? || e.ContextDone? ==> s.backend.Listening?
    ensures e.SeeUpdatesClosed? || e.SeeStopped? || e.ContextDone? ==> !Step(s, e).backend.Listening?
    ensures !(e.SeeUpdatesClosed? || e.SeeStopped? || e.ContextDone?) ==> (Step(s, e).backend.Listening? <==> s.backend.Listening?)
  {
  }

  class Pod {
    var status: PodStatus

    constructor ()
      ensures status == Unset
    {
      status := Unset;
    }

    method HandleUpdate(u: Update, now: Time)
      modifies this
      ensures status == StatusAfter(old(status), u, now)
      ensures status.phase == Some(if u.status == Starting then Pending else if u.status == Running then PodRunning
                                   else if u.status == Finished then Succeeded else PodFailed)
      ensures status.reason == Some(u.status) && status.message == u.msg
      ensures status.details == if u.details.Some? then u.details else old(status).details
      ensures u.status == Starting ==> status.container == Some(ContainerState.Waiting)
      ensures u.status == Running ==> status.container == Some(RunningSince(now))
      ensures Terminal(u) ==>
                exists start :: status.container == Some(Terminated(start, now)) &&
                  start == match old(status).container case Some(RunningSince(at)) => Some(at) case _ => None
    {
      var prev := status.container;
      status := status.(message := u.msg);
      if u.details.Some? {
        status := status.(details := u.details);
      }
      status := status.(reason := Some(u.status), phase := Some(PhaseOf(u.status)));
      status := status.(container := Some(ContainerAfter(prev, u.status, now)));
    }

    /** The loop: it handles the first n updates, n being where another choice ends it. */
    method UpdateLoop(us: seq<Update>, clock: nat -> Time, choices: seq<Choice>, runner: Runner, ghost n: nat)
      returns (written: seq<PodStatus>)
      requires n <= |us| && |choices| == n + 1 && status == Unset
      requires forall i :: 0 <= i <= n ==> (choices[i].TakeUpdate? <==> i < n)
      modifies this, runner`killed
      ensures status == StatusAt(us, clock, n) && Written(us, clock, written, n)
      ensures TakeContextDone in choices ==> runner.killed
    {
      written := [];
      while choices[|written|].TakeUpdate?
        invariant |written| <= n && status == StatusAt(us, clock, |written|) && Written(us, clock, written, |written|)
        decreases n - |written|
      {
        HandleUpdate(us[|written|], clock(|written|));
        written := written + [status];
      }
      if choices[|written|].TakeContextDone? {
        runner.Kill();
      }
    }

    /** The update loop beside a run of the runner: it writes, in order, the status due after each update it
        takes. The terminal status is missing from what it wrote exactly if its select took StoppedChan or
        its context while updates were queued or the terminal one was still to come. */
    method RunWithBackend(us: seq<Update>, clock: nat -> Time, choices: seq<Choice>, runner: Runner,
                          ghost ss: seq<State>, ghost es: seq<Event>)
      returns (written: seq<PodStatus>)
      requires IsRun(ss, es) && ss[|es|].backend.Returned? && us == ss[|es|].published && choices == Choices(es)
      requires status == Unset
      modifies this, runner`killed
      ensures ss[|es|].read <= |us| && status == StatusAt(us, clock, ss[|es|].read) && Written(us, clock, written, ss[|es|].read)
      ensures (forall i :: 0 <= i < |written| ==> !Final(written[i])) <==> exists j :: 0 <= j < |es| && Abandons(ss[j], es[j])
      ensures status.phase == Some(Succeeded) <==> ss[|es|].read > 0 && us[ss[|es|].read - 1].status.Finished?
      ensures status.phase == Some(PodFailed) <==>
              ss[|es|].read > 0 && us[ss[|es|].read - 1].status in {Failed, Killed, Lost}
      ensures TakeContextDone in choices ==> runner.killed
    {
      assert es[..|es|] == es;
      ChoicesUpTo(ss, es, |es|);
      TerminalLostExactly(ss, es, |es|);
      written := UpdateLoop(us, clock, choices, runner, ss[|es|].read);
      WrittenFinal(us, clock, written, ss[|es|].read);
    }
  }

  /** The first n statuses due were written. */
  ghost predicate Written(us: seq<Update>, clock: nat -> Time, written: seq<PodStatus>, n: nat)
    requires n <= |us|
  {
    |written| == n && forall i :: 0 <= i < n ==> written[i] == StatusAt(us, clock, i + 1)
  }

  lemma WrittenFinal(us: seq<Update>, clock: nat -> Time, written: seq<PodStatus>, n: nat)
    requires n <= |us| && Written(us, clock, written, n)
    ensures forall i :: 0 <= i < n ==> (Final(written[i]) <==> Terminal(us[i]))
  {
  }

  /** The pod has succeeded or failed. */
  predicate Final(p: PodStatus) { p.phase == Some(Succeeded) || p.phase == Some(PodFailed) }

  function Rank(p: Phase): nat {
    match p
    case Pending => 0
    case PodRunning => 1
    case Succeeded => 2
    case PodFailed => 2
  }

  /** Over a tidy sequence the phase never goes back, and nothing follows Succeeded or Failed. */
  lemma PhasesForward(us: seq<Update>, i: nat, j: nat)
    requires !StageOf(us).Broken? && i < j < |us|
    ensures Rank(PhaseOf(us[i].status)) <= Rank(PhaseOf(us[j].status)) && Rank(PhaseOf(us[i].status)) < 2
  {
    var a, b := StageTidy(us);
  }

  /** Whatever the runner does and wherever the backend stops, the phases it wrote never regress, only
      the last one can be Succeeded or Failed, and that one has the start time of the last Running status,
      if there was one. */
  lemma PodNeverRegresses(ss: seq<State>, es: seq<Event>, k: nat, clock: nat -> Time, i: nat, j: nat)
    requires IsRun(ss, es) && k < |ss| && i < j < |ss[k].published|
    ensures var us := ss[k].published;
            var p, q := StatusAt(us, clock, i + 1), StatusAt(us, clock, j + 1);
            && p.phase.Some? && q.phase.Some? && Rank(p.phase.value) <= Rank(q.phase.value)
            && Rank(p.phase.value) < 2
            && (Rank(q.phase.value) == 2 ==>
                  && j == |us| - 1 && q.container.Some? && q.container.value.Terminated?
                  && q.container.value.start ==
                     if us[j - 1].status.Running? then Some(clock(j - 1)) else None)
  {
    var us := ss[k].published;
    RunInv(ss, es, k);
    StagePublished(ss[k]);
    PhasesForward(us, i, j);
    if j < |us| - 1 { PhasesForward(us, j, |us| - 1); }
    PhasesForward(us, j - 1, j);
    assert StatusAt(us, clock, j) == StatusAfter(StatusAt(us, clock, j - 1), us[j - 1], clock(j - 1));
  }
}
