/** What the advisory lock adds: a row whose lock nobody has lost is worked on by one worker at a time, and is
    in the phase that worker found it in. */
module AttachmentLocks {
  import opened Option
  import opened AttachmentTables
  import opened AttachmentProtocol
  import opened AttachmentInvariant
  import opened AttachmentRuns

  predicate WorksOn(s: State, w: Worker, i: RowId) {
    w in s.pcs && !s.pcs[w].Purged? && s.pcs[w].row == i
  }

  /** The worker's row is where the worker's next commit expects it. */
  predicate InPhase(s: State, w: Worker)
    requires w in s.pcs && !s.pcs[w].Purged?
  {
    var pc := s.pcs[w];
    && (pc.Associating? || pc.Associated? || pc.Refused? ==> pc.row in s.rows && s.rows[pc.row].phase.Attaching?)
    && (pc.Disassociating? || pc.Cleared? || pc.Disassociated? ==>
          pc.row in s.rows && s.rows[pc.row].phase.Unattaching?)
  }

  ghost predicate Guarded(s: State, i: RowId) {
    forall w :: WorksOn(s, w, i) ==> HoldsLock(s, w) && InPhase(s, w)
  }

  /** A worker of row i loses the lock. */
  predicate Loses(s: State, e: Event, i: RowId) {
    e.LoseLock? && WorksOn(s, e.w, i)
  }

  /** As long as no worker of a row loses its lock, one worker at a time has the row, it finds the row where it
      left it, and so the guards of its updates never miss. */
  lemma {:induction false} LockGuards(ss: seq<State>, es: seq<Event>, k: nat, i: RowId)
    requires IsRun(ss, es) && k < |ss| && forall j :: 0 <= j < k ==> !Loses(ss[j], es[j], i)
    ensures Guarded(ss[k], i)
    ensures forall v, w :: WorksOn(ss[k], v, i) && WorksOn(ss[k], w, i) ==> v == w
  {
    if k > 0 {
      LockGuards(ss, es, k - 1, i);
      RunInv(ss, es, k - 1);
      assert StepAt(ss, es, k - 1);
      GuardedStep(ss[k - 1], es[k - 1], i);
    }
    assert forall v :: WorksOn(ss[k], v, i) ==> HoldsLock(ss[k], v);
  }

  lemma GuardedStep(s: State, e: Event, i: RowId)
    requires Inv(s) && Enabled(s, e) && Guarded(s, i) && !Loses(s, e, i)
    ensures Guarded(Step(s, e), i)
  {
    var s' := Step(s, e);
    forall w | WorksOn(s', w, i) ensures HoldsLock(s', w) && InPhase(s', w) {
      if w in s.pcs && s.pcs[w] == s'.pcs[w] {
        assert WorksOn(s, w, i);
        KeepsLock(s, e, w);
        if InPhase(s, w) && !s.pcs[w].Locked? { KeepsPhase(s, e, w); }
      } else {
        TakesLock(s, e, w);
        TakesPhase(s, e, w);
      }
    }
  }

  lemma KeepsLock(s: State, e: Event, w: Worker)
    requires Enabled(s, e) && w in s.pcs && !s.pcs[w].Purged? && HoldsLock(s, w)
    requires w in Step(s, e).pcs && Step(s, e).pcs[w] == s.pcs[w] && e != LoseLock(w)
    ensures HoldsLock(Step(s, e), w)
  {
  }

  /** Another worker's row is another row. */
  lemma KeepsPhase(s: State, e: Event, w: Worker)
    requires RowsOk(s) && WorkersOk(s) && TokensOk(s) && Enabled(s, e)
    requires w in s.pcs && !s.pcs[w].Purged? && !s.pcs[w].Locked?
    requires Guarded(s, s.pcs[w].row) && w in Step(s, e).pcs && Step(s, e).pcs[w] == s.pcs[w]
    ensures InPhase(Step(s, e), w)
  {
    var i := s.pcs[w].row;
    assert WorksOn(s, w, i) && WorkerOk(s, w) && RowOk(s, i);
    NoRevert(s, e);
    if Finishes(e) {
      if s.pcs[e.w].row == i {
        assert WorksOn(s, e.w, i);
        FinishTurns(s, e);
      } else {
        FinishFrames(s, e, i);
      }
    } else {
      LiveRowStays(s, e, i);
    }
  }

  lemma FinishTurns(s: State, e: Event)
    requires Enabled(s, e) && Finishes(e)
    ensures e.w in Step(s, e).pcs && Step(s, e).pcs[e.w] != s.pcs[e.w]
  {
  }

  lemma FinishFrames(s: State, e: Event, i: RowId)
    requires Enabled(s, e) && Finishes(e) && i in s.rows && s.pcs[e.w].row != i
    ensures i in Step(s, e).rows && Step(s, e).rows[i] == s.rows[i]
  {
  }

  lemma LiveRowStays(s: State, e: Event, i: RowId)
    requires Enabled(s, e) && !Finishes(e) && !e.CommitRevert? && i in s.rows && i != s.nextRow && RowOk(s, i)
    requires s.rows[i].phase.Attaching? || s.rows[i].phase.Unattaching?
    ensures i in Step(s, e).rows && Step(s, e).rows[i] == s.rows[i]
  {
  }

  lemma TakesLock(s: State, e: Event, w: Worker)
    requires Enabled(s, e) && w in Step(s, e).pcs && !Step(s, e).pcs[w].Purged?
    requires w in s.pcs ==> s.pcs[w] != Step(s, e).pcs[w] && !s.pcs[w].Purged? && HoldsLock(s, w)
    ensures HoldsLock(Step(s, e), w)
  {
  }

  lemma TakesPhase(s: State, e: Event, w: Worker)
    requires Enabled(s, e) && w in Step(s, e).pcs && !Step(s, e).pcs[w].Purged?
    requires w in s.pcs ==> s.pcs[w] != Step(s, e).pcs[w] && !s.pcs[w].Purged? && InPhase(s, w)
    ensures InPhase(Step(s, e), w)
  {
  }
}
