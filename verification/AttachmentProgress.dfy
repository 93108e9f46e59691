/** That the protocol gets somewhere: every run can be continued until an attaching row is attached, or an
    unattaching one unattached, whatever has crashed or been lost before. */
module AttachmentProgress {
  import opened Option
  import opened AttachmentTables
  import opened AttachmentProtocol
  import opened AttachmentInvariant
  import opened AttachmentRuns
  import opened AttachmentLocks

  /** Every lock is held by a worker of its row. */
  ghost predicate LocksOk(s: State) {
    forall i :: i in s.locks ==> WorksOn(s, s.locks[i], i)
  }

  lemma LocksOkStep(s: State, e: Event)
    requires LocksOk(s) && Enabled(s, e)
    ensures LocksOk(Step(s, e))
  {
    forall i | i in Step(s, e).locks ensures WorksOn(Step(s, e), Step(s, e).locks[i], i) {
      LockStays(s, e, i);
    }
  }

  lemma LockStays(s: State, e: Event, i: RowId)
    requires Enabled(s, e) && i in Step(s, e).locks && (i in s.locks ==> WorksOn(s, s.locks[i], i))
    ensures WorksOn(Step(s, e), Step(s, e).locks[i], i)
  {
  }

  lemma {:induction false} RunLocks(ss: seq<State>, es: seq<Event>, k: nat)
    requires IsRun(ss, es) && k < |ss|
    ensures LocksOk(ss[k])
  {
    if k > 0 {
      RunLocks(ss, es, k - 1);
      assert StepAt(ss, es, k - 1);
      LocksOkStep(ss[k - 1], es[k - 1]);
    }
  }

  // ---- Continuing a run ----

  /** The second run goes on where the first one stops. */
  ghost predicate Continues(ss: seq<State>, es: seq<Event>, ss': seq<State>, es': seq<Event>) {
    IsRun(ss, es) && IsRun(ss', es') && ss <= ss' && es <= es'
  }

  ghost function Last(ss: seq<State>): State
    requires ss != []
  {
    ss[|ss| - 1]
  }

  lemma Then(ss: seq<State>, es: seq<Event>, e: Event) returns (ss': seq<State>, es': seq<Event>)
    requires IsRun(ss, es) && Enabled(Last(ss), e)
    ensures Continues(ss, es, ss', es') && es' == es + [e] && ss' == ss + [Step(Last(ss), e)]
    ensures Last(ss') == Step(Last(ss), e)
  {
    ss', es' := ss + [Step(Last(ss), e)], es + [e];
    forall k | 0 <= k < |es'| ensures StepAt(ss', es', k) {
      if k < |es| { assert StepAt(ss, es, k); }
    }
  }

  lemma {:induction false} Above(xs: set<nat>) returns (n: nat)
    ensures forall x :: x in xs ==> x < n
    decreases |xs|
  {
    if xs == {} {
      n := 0;
    } else {
      var x :| x in xs;
      var m := Above(xs - {x});
      n := if m > x then m else x + 1;
      assert forall y :: y in xs ==> y == x || y in xs - {x};
    }
  }

  /** Nothing but locks and workers has changed, and w has just taken the row's lock. */
  ghost predicate Ready(s: State, s': State, w: Worker, i: RowId) {
    && s'.rows == s.rows && s'.created == s.created && s'.live == s.live && s'.assignments == s.assignments
    && w in s'.pcs && s'.pcs[w] == Locked(i) && HoldsLock(s', w)
  }

  /** The lock of a row can always be had: its holder may crash, and there is always another worker. */
  lemma TakeLock(ss: seq<State>, es: seq<Event>, i: RowId) returns (ss': seq<State>, es': seq<Event>, w: Worker)
    requires IsRun(ss, es)
    ensures Continues(ss, es, ss', es') && Ready(Last(ss), Last(ss'), w, i)
  {
    RunLocks(ss, es, |es|);
    ss', es' := ss, es;
    if i in Last(ss).locks {
      assert WorksOn(Last(ss), Last(ss).locks[i], i);
      ss', es' := Then(ss, es, EndTx(Last(ss).locks[i]));
    }
    w := Above(Last(ss').pcs.Keys);
    ss', es' := Then(ss', es', Acquire(w, i));
  }

  /** A row can be inserted exactly for an ENI of the table that no attaching, attached or unattaching row has, in a
      trunk's slot that none of them has, and with a token never drawn before. */
  lemma CanStart(s: State, branch: Eni, trunk: Eni, idx: nat, token: Token)
    ensures Enabled(s, StartAssociation(branch, trunk, idx, token)) <==>
            && branch in s.enis && (forall i :: i in s.drawn ==> s.drawn[i] != token)
            && forall i :: i in s.rows && s.rows[i].phase in {Attaching, Attached, Unattaching} ==>
                 s.rows[i].branch != branch && !(s.rows[i].trunk == trunk && s.rows[i].idx == idx)
  {
    if i :| i in s.rows && s.rows[i].phase in {Attaching, Attached, Unattaching} &&
            (s.rows[i].branch == branch || (s.rows[i].trunk == trunk && s.rows[i].idx == idx)) {
      assert LivePhase(s.rows[i].phase);
    }
  }

  // ---- Every attaching row can be attached ----

  /** However often it was tried before, an attaching row can be attached, with the association that EC2 made for
      it already if there is one. */
  lemma CanAttach(ss: seq<State>, es: seq<Event>, i: RowId) returns (ss': seq<State>, es': seq<Event>, a: AssocId)
    requires IsRun(ss, es) && i in Last(ss).rows && Last(ss).rows[i].phase.Attaching?
    ensures Continues(ss, es, ss', es')
    ensures Last(ss').rows == Last(ss).rows[i := Last(ss).rows[i].(phase := Attached, assoc := Some(a))]
    ensures Last(ss').assignments == Last(ss).assignments && a in Last(ss').live
    ensures var t := Last(ss).rows[i].token; t in Last(ss).created ==> a == Last(ss).created[t].id
  {
    var w;
    ss', es', w := TakeLock(ss, es, i);
    a := Answer(Last(ss'), Last(ss).rows[i].token);
    ss', es' := Associates(ss', es', w, i, a);
    ss', es' := Then(ss', es', CommitAttached(w));
    RunInv(ss', es', |es'|);
    assert RowOk(Last(ss'), i);
  }

  /** EC2 can always answer as it promises. */
  lemma Answer(s: State, t: Token) returns (a: AssocId)
    ensures Idempotent(s, t, a)
  {
    if t in s.created {
      a := s.created[t].id;
    } else {
      var ids := set u | u in s.created :: s.created[u].id;
      a := Above(ids);
      forall u | u in s.created ensures s.created[u].id != a { assert s.created[u].id in ids; }
    }
  }

  lemma Associates(ss: seq<State>, es: seq<Event>, w: Worker, i: RowId, a: AssocId)
    returns (ss': seq<State>, es': seq<Event>)
    requires IsRun(ss, es) && w in Last(ss).pcs && Last(ss).pcs[w] == Locked(i) && HoldsLock(Last(ss), w)
    requires i in Last(ss).rows && Last(ss).rows[i].phase.Attaching? && Idempotent(Last(ss), Last(ss).rows[i].token, a)
    ensures Continues(ss, es, ss', es') && Last(ss').rows == Last(ss).rows && Last(ss').assignments == Last(ss).assignments
    ensures w in Last(ss').pcs && Last(ss').pcs[w] == Associated(i, a)
  {
    ss', es' := Then(ss, es, LoadForAssociation(w));
    ss', es' := Then(ss', es', CallAssociate(w, a, false));
  }

  /** Or it can fail, if EC2 refuses. */
  lemma CanFail(ss: seq<State>, es: seq<Event>, i: RowId) returns (ss': seq<State>, es': seq<Event>)
    requires IsRun(ss, es) && i in Last(ss).rows && Last(ss).rows[i].phase.Attaching?
    ensures Continues(ss, es, ss', es')
    ensures Last(ss').rows == Last(ss).rows[i := Last(ss).rows[i].(phase := Failed)]
  {
    var w;
    ss', es', w := TakeLock(ss, es, i);
    ss', es' := Then(ss', es', LoadForAssociation(w));
    ss', es' := Then(ss', es', RefuseAssociate(w));
    ss', es' := Then(ss', es', CommitFailed(w));
  }

  /** When EC2 acts and its answer is lost, the worker is gone, and a retry ends with that same association. */
  lemma LostAnswerIsFound(ss: seq<State>, es: seq<Event>, w: Worker, a: AssocId)
    returns (ss': seq<State>, es': seq<Event>)
    requires IsRun(ss, es) && w in Last(ss).pcs && Last(ss).pcs[w].Associating?
    requires Last(ss).pcs[w].token !in Last(ss).created && !KnownAssociation(Last(ss), a)
    requires Last(ss).pcs[w].row in Last(ss).rows && Last(ss).rows[Last(ss).pcs[w].row].phase.Attaching?
    ensures Continues(ss, es, ss', es') && |ss'| > |ss| && es'[|es|] == CallAssociate(w, a, true)
    ensures w !in ss'[|ss|].pcs && a in ss'[|ss|].live && ss'[|ss|].rows == Last(ss).rows
    ensures var i := Last(ss).pcs[w].row;
            i in Last(ss').rows && Last(ss').rows[i].phase.Attached? && Last(ss').rows[i].assoc == Some(a)
  {
    var i := Last(ss).pcs[w].row;
    RunInv(ss, es, |es|);
    assert WorkerOk(Last(ss), w) && RowOk(Last(ss), i);
    var ss1, es1 := Then(ss, es, CallAssociate(w, a, true));
    var b;
    ss', es', b := CanAttach(ss1, es1, i);
  }

  // ---- Every unattaching row can be unattached ----

  /** An attached row can be marked for removal exactly if that is forced or nothing uses its association. */
  lemma CanStartLeaving(ss: seq<State>, es: seq<Event>, i: RowId, force: bool)
    requires IsRun(ss, es) && i in Last(ss).rows && Last(ss).rows[i].phase.Attached?
    ensures Last(ss).rows[i].assoc.Some?
    ensures Enabled(Last(ss), StartDissociation(i, force)) <==>
            force || forall t :: t in Last(ss).assignments ==> Last(ss).assignments[t] != Last(ss).rows[i].assoc.value
  {
    RunInv(ss, es, |es|);
    assert RowOk(Last(ss), i);
  }

  lemma CanUnattach(ss: seq<State>, es: seq<Event>, i: RowId) returns (ss': seq<State>, es': seq<Event>)
    requires IsRun(ss, es) && i in Last(ss).rows && Last(ss).rows[i].phase.Unattaching?
    ensures Continues(ss, es, ss', es')
    ensures Last(ss').rows == Last(ss).rows[i := Last(ss).rows[i].(phase := Unattached)]
    ensures Last(ss).rows[i].assoc.Some? && Last(ss').live == Last(ss).live - {Last(ss).rows[i].assoc.value}
    ensures Last(ss').assignments == Last(ss).assignments
  {
    RunInv(ss, es, |es|);
    assert RowOk(Last(ss), i);
    var w;
    ss', es', w := TakeLock(ss, es, i);
    ss', es' := Clears(ss', es', w, i);
    ss', es' := Completes(ss', es', w, i, Last(ss).rows[i].assoc.value);
  }

  lemma Clears(ss: seq<State>, es: seq<Event>, w: Worker, i: RowId) returns (ss': seq<State>, es': seq<Event>)
    requires IsRun(ss, es) && w in Last(ss).pcs && Last(ss).pcs[w] == Locked(i) && HoldsLock(Last(ss), w)
    requires i in Last(ss).rows && Last(ss).rows[i].phase.Unattaching? && Last(ss).rows[i].assoc.Some?
    ensures Continues(ss, es, ss', es') && Last(ss').rows == Last(ss).rows && Last(ss').live == Last(ss).live
    ensures Last(ss').assignments == Last(ss).assignments
    ensures w in Last(ss').pcs && Last(ss').pcs[w] == Cleared(i, Last(ss).rows[i].assoc.value)
  {
    var r := Last(ss).rows[i];
    RunInv(ss, es, |es|);
    assert RowOk(Last(ss), i);
    if !r.force { Unused(Last(ss), i, r.assoc.value); }
    ss', es' := Then(ss, es, LoadForDisassociation(w));
    assert HasAssignments(Last(ss'), r.assoc.value) == HasAssignments(Last(ss), r.assoc.value);
    ss', es' := Then(ss', es', Recheck(w, Complete));
  }

  lemma Completes(ss: seq<State>, es: seq<Event>, w: Worker, i: RowId, a: AssocId)
    returns (ss': seq<State>, es': seq<Event>)
    requires IsRun(ss, es) && w in Last(ss).pcs && Last(ss).pcs[w] == Cleared(i, a) && i in Last(ss).rows
    ensures Continues(ss, es, ss', es') && Last(ss').rows == Last(ss).rows[i := Last(ss).rows[i].(phase := Unattached)]
    ensures Last(ss').live == Last(ss).live - {a} && Last(ss').assignments == Last(ss).assignments
  {
    ss', es' := Then(ss, es, CallDisassociate(w, false));
    ss', es' := Then(ss', es', CommitUnattached(w));
  }

  // ---- A whole life ----

  /** A run in which a row is attached, gets an assignment, is forced out while in use, and ends unattached; then its
      assignment and its ENI can go. */
  lemma WholeLife(eni: Eni, trunk: Eni, idx: nat, token: Token, task: TaskId)
    returns (ss: seq<State>, es: seq<Event>, used: nat, leaving: nat, i: RowId)
    ensures IsRun(ss, es) && used < leaving < |es|
    ensures i in ss[used].rows && ss[used].rows[i].phase.Attached? && ss[used].rows[i].branch == eni
    ensures task in ss[used].assignments && ss[used].rows[i].assoc == Some(ss[used].assignments[task])
    ensures i in ss[leaving].rows && ss[leaving].rows[i].phase.Unattaching? && ss[leaving].rows[i].force
    ensures i in ss[|es|].rows && ss[|es|].rows[i].phase.Unattached?
    ensures Enabled(ss[|es|], DeleteAssignment(task))
  {
    ss, es, i := FirstUse(eni, trunk, idx, token, task);
    used := |es|;
    var ss1, es1 := Then(ss, es, StartDissociation(i, true));
    leaving := |es1|;
    ss, es := CanUnattach(ss1, es1, i);
    assert task in Last(ss1).assignments;
    assert ss[used] == ss1[used] && ss[leaving] == ss1[leaving];
  }

  lemma FirstUse(eni: Eni, trunk: Eni, idx: nat, token: Token, task: TaskId)
    returns (ss: seq<State>, es: seq<Event>, i: RowId)
    ensures IsRun(ss, es) && i in Last(ss).rows && Last(ss).rows[i].phase.Attached? && Last(ss).rows[i].branch == eni
    ensures task in Last(ss).assignments && Last(ss).rows[i].assoc == Some(Last(ss).assignments[task])
  {
    ss, es := Then([Init], [], CreateEni(eni));
    ss, es := Then(ss, es, StartAssociation(eni, trunk, idx, token));
    i := 0;
    var a;
    ss, es, a := CanAttach(ss, es, i);
    ss, es := Then(ss, es, InsertAssignment(task, i));
  }

  /** An ENI can be purged exactly if it has no row that is attaching, attached or unattaching. */
  lemma CanPurge(s: State, eni: Eni) returns (w: Worker)
    requires eni in s.enis
    ensures w !in s.pcs
    ensures Enabled(s, PurgeExcess(w, eni)) <==>
            forall i :: i in s.rows && s.rows[i].branch == eni ==> s.rows[i].phase in {Unattached, Failed}
  {
    w := Above(s.pcs.Keys);
    if i :| i in s.rows && s.rows[i].branch == eni && s.rows[i].phase !in {Unattached, Failed} {
      assert LivePhase(s.rows[i].phase);
    }
  }

  // ---- What losing a lock allows ----

  /** The condition on locks is needed: once a worker has lost its lock, a second one can take the row. */
  lemma TwoWorkers(ss: seq<State>, es: seq<Event>, w: Worker) returns (ss': seq<State>, es': seq<Event>, v: Worker)
    requires IsRun(ss, es) && w in Last(ss).pcs && !Last(ss).pcs[w].Purged? && HoldsLock(Last(ss), w)
    ensures Continues(ss, es, ss', es') && v != w
    ensures WorksOn(Last(ss'), w, Last(ss).pcs[w].row) && WorksOn(Last(ss'), v, Last(ss).pcs[w].row)
    ensures Last(ss').pcs[w] == Last(ss).pcs[w]
  {
    ss', es' := Then(ss, es, LoseLock(w));
    v := Above(Last(ss').pcs.Keys);
    ss', es' := Then(ss', es', Acquire(v, Last(ss).pcs[w].row));
  }
}
