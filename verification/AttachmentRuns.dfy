/** What holds over whole runs of the attachment protocol, under every interleaving, crash and retry. */
module AttachmentRuns {
  import opened Option
  import opened AttachmentTables
  import opened AttachmentProtocol
  import opened AttachmentInvariant

  ghost predicate IsRun(ss: seq<State>, es: seq<Event>) {
    && |ss| == |es| + 1 && ss[0] == Init
    && forall k :: 0 <= k < |es| ==> StepAt(ss, es, k)
  }

  ghost predicate StepAt(ss: seq<State>, es: seq<Event>, k: nat)
    requires k < |es| && |ss| == |es| + 1
  {
    Enabled(ss[k], es[k]) && ss[k + 1] == Step(ss[k], es[k])
  }

  lemma {:induction false} RunInv(ss: seq<State>, es: seq<Event>, k: nat)
    requires IsRun(ss, es) && k < |ss|
    ensures Inv(ss[k])
  {
    if k == 0 {
      InvInit();
    } else {
      RunInv(ss, es, k - 1);
      assert StepAt(ss, es, k - 1);
      InvStep(ss[k - 1], es[k - 1]);
    }
  }

  // ---- One association per row ----

  /** Event k of the run makes EC2 create an association for row i. */
  ghost predicate CreatesFor(s: State, e: Event, i: RowId) {
    e.CallAssociate? && Enabled(s, e) && s.pcs[e.w].row == i && s.pcs[e.w].token !in s.created
  }

  /** A row keeps its token, and EC2 what the token produced, for the rest of the run. */
  lemma {:induction false} RowPersists(ss: seq<State>, es: seq<Event>, j: nat, k: nat, i: RowId)
    requires IsRun(ss, es) && j <= k < |ss| && i in ss[j].rows && i in ss[k].rows
    ensures ss[k].rows[i].token == ss[j].rows[i].token
    ensures ss[j].rows[i].assoc.Some? ==> ss[k].rows[i].assoc == ss[j].rows[i].assoc
    ensures ss[j].rows[i].phase.Failed? || ss[j].rows[i].phase.Unattached? ==> ss[k].rows[i] == ss[j].rows[i]
    ensures forall t :: t in ss[j].created ==> t in ss[k].created && ss[k].created[t] == ss[j].created[t]
  {
    if j < k {
      RunInv(ss, es, k - 1);
      assert StepAt(ss, es, k - 1);
      if i !in ss[k - 1].rows {
        RowAppears(ss[k - 1], es[k - 1], i);
        NewRowIsNew(ss, es, j, k - 1, i);
      } else {
        RowPersists(ss, es, j, k - 1, i);
        RowMoves(ss[k - 1], es[k - 1], i);
        Ec2Framed(ss[k - 1], es[k - 1]);
      }
    }
  }

  /** Row ids are never handed out twice. */
  lemma {:induction false} NewRowIsNew(ss: seq<State>, es: seq<Event>, j: nat, k: nat, i: RowId)
    requires IsRun(ss, es) && j <= k < |ss| && i in ss[j].rows
    ensures i < ss[k].nextRow
  {
    if j == k {
      RunInv(ss, es, j);
      RowIdBelow(ss[j], i);
    } else {
      NewRowIsNew(ss, es, j, k - 1, i);
      assert StepAt(ss, es, k - 1);
      NextRowGrows(ss[k - 1], es[k - 1]);
    }
  }

  lemma RowIdBelow(s: State, i: RowId)
    requires RowsOk(s) && TokensOk(s) && i in s.rows
    ensures i < s.nextRow
  {
    assert RowOk(s, i);
  }

  lemma NextRowGrows(s: State, e: Event)
    requires Enabled(s, e)
    ensures s.nextRow <= Step(s, e).nextRow
  {
  }

  /** However often a row is retried and by whom, EC2 creates at most one association for it. */
  lemma AtMostOneAssociation(ss: seq<State>, es: seq<Event>, j: nat, k: nat, i: RowId)
    requires IsRun(ss, es) && j < |es| && k < |es|
    requires CreatesFor(ss[j], es[j], i) && CreatesFor(ss[k], es[k], i)
    ensures j == k
  {
    if j < k {
      CreatesOnce(ss, es, j, k, i);
    } else if k < j {
      CreatesOnce(ss, es, k, j, i);
    }
  }

  lemma CreatesOnce(ss: seq<State>, es: seq<Event>, j: nat, k: nat, i: RowId)
    requires IsRun(ss, es) && j < k < |es| && CreatesFor(ss[j], es[j], i)
    ensures !CreatesFor(ss[k], es[k], i)
  {
    if CreatesFor(ss[k], es[k], i) {
      RunInv(ss, es, j);
      RunInv(ss, es, k);
      assert WorkerOk(ss[j], es[j].w) && WorkerOk(ss[k], es[k].w);
      assert StepAt(ss, es, j);
      assert ss[j].drawn[i] in ss[j + 1].created;
      DrawnKept(ss[j], es[j]);
      TokenPersists(ss, es, j + 1, k, i);
    }
  }

  /** Even a row that is deleted keeps its token, and EC2 what the token produced. */
  lemma {:induction false} TokenPersists(ss: seq<State>, es: seq<Event>, j: nat, k: nat, i: RowId)
    requires IsRun(ss, es) && j <= k < |ss| && i in ss[j].drawn
    ensures i in ss[k].drawn && ss[k].drawn[i] == ss[j].drawn[i]
    ensures forall t :: t in ss[j].created ==> t in ss[k].created && ss[k].created[t] == ss[j].created[t]
  {
    if j < k {
      TokenPersists(ss, es, j, k - 1, i);
      RunInv(ss, es, k - 1);
      assert StepAt(ss, es, k - 1);
      DrawnKept(ss[k - 1], es[k - 1]);
      Ec2Framed(ss[k - 1], es[k - 1]);
    }
  }

  /** A row with an association id carries the id of the one association its token produced, and that
      association joins the row's branch ENI to the row's trunk ENI on the row's VLAN. */
  lemma AttachedCarriesItsAssociation(ss: seq<State>, es: seq<Event>, k: nat, i: RowId)
    requires IsRun(ss, es) && k < |ss| && i in ss[k].rows
    ensures var r := ss[k].rows[i];
            && (r.assoc.Some? <==> r.phase.Attached? || r.phase.Unattaching? || r.phase.Unattached?)
            && (r.assoc.Some? ==>
                  && r.token in ss[k].created
                  && ss[k].created[r.token] == Association(r.assoc.value, r.trunk, r.branch, r.idx))
    ensures forall j :: j in ss[k].rows && j != i && ss[k].rows[i].assoc.Some? ==> ss[k].rows[j].assoc != ss[k].rows[i].assoc
  {
    RunInv(ss, es, k);
    assert RowOk(ss[k], i);
    forall j | j in ss[k].rows && j != i && ss[k].rows[i].assoc.Some?
      ensures ss[k].rows[j].assoc != ss[k].rows[i].assoc
    {
      if ss[k].rows[j].assoc == ss[k].rows[i].assoc { AssociationOwner(ss[k], i, j); }
    }
  }

  // ---- Agreement between the database and EC2 ----

  /** Every row the database calls attached is attached in EC2, as the row says, in every state of every
      run: whatever crashes, is retried or fails. */
  lemma AttachedIsLive(ss: seq<State>, es: seq<Event>, k: nat, i: RowId)
    requires IsRun(ss, es) && k < |ss| && i in ss[k].rows && ss[k].rows[i].phase.Attached?
    ensures var r := ss[k].rows[i];
            && r.assoc.Some? && r.assoc.value in ss[k].live && r.token in ss[k].created
            && ss[k].created[r.token] == Association(r.assoc.value, r.trunk, r.branch, r.idx)
  {
    RunInv(ss, es, k);
    assert RowOk(ss[k], i);
  }

  /** And every row it calls unattached is not. */
  lemma UnattachedIsGone(ss: seq<State>, es: seq<Event>, k: nat, i: RowId)
    requires IsRun(ss, es) && k < |ss| && i in ss[k].rows && ss[k].rows[i].phase.Unattached?
    ensures ss[k].rows[i].assoc.Some? && ss[k].rows[i].assoc.value !in ss[k].live
  {
    RunInv(ss, es, k);
    assert RowOk(ss[k], i);
  }

  /** finishDisassociation never puts a row back to attached: an unforced row on its way out is never in
      use, and a query that fails takes the revert with it. */
  lemma NeverReverts(ss: seq<State>, es: seq<Event>, k: nat)
    requires IsRun(ss, es) && k < |es|
    ensures !es[k].CommitRevert?
    ensures forall w :: w in ss[k].pcs && ss[k].pcs[w].Disassociating? && !ss[k].pcs[w].force ==>
              !HasAssignments(ss[k], ss[k].pcs[w].assoc)
  {
    RunInv(ss, es, k);
    assert StepAt(ss, es, k);
    NoRevert(ss[k], es[k]);
    forall w | w in ss[k].pcs && ss[k].pcs[w].Disassociating? && !ss[k].pcs[w].force
      ensures !HasAssignments(ss[k], ss[k].pcs[w].assoc)
    {
      assert WorkerOk(ss[k], w);
      Unused(ss[k], ss[k].pcs[w].row, ss[k].pcs[w].assoc);
    }
  }

  /** Event k removes association a from EC2, or would have. */
  ghost predicate Removes(s: State, e: Event, a: AssocId) {
    e.CallDisassociate? && Enabled(s, e) && s.pcs[e.w].assoc == a
  }

  /** A known association is gone exactly when some earlier call disassociated it. */
  lemma {:induction false} GoneExactly(ss: seq<State>, es: seq<Event>, k: nat, a: AssocId)
    requires IsRun(ss, es) && k < |ss| && KnownAssociation(ss[k], a)
    ensures a !in ss[k].live <==> exists j :: 0 <= j < k && Removes(ss[j], es[j], a)
  {
    if k > 0 {
      RunInv(ss, es, k - 1);
      assert StepAt(ss, es, k - 1);
      var s, e := ss[k - 1], es[k - 1];
      if KnownAssociation(s, a) {
        GoneExactly(ss, es, k - 1, a);
        LiveStep(s, e, a);
        assert Removes(s, e, a) ==> exists j :: 0 <= j < k && Removes(ss[j], es[j], a);
      } else {
        NewIsLive(s, e, a);
        forall j | 0 <= j < k ensures !Removes(ss[j], es[j], a) {
          if Removes(ss[j], es[j], a) { RemovesKnown(ss, es, j, k - 1, a); }
        }
      }
    }
  }

  lemma NewIsLive(s: State, e: Event, a: AssocId)
    requires Enabled(s, e) && !KnownAssociation(s, a) && KnownAssociation(Step(s, e), a)
    ensures a in Step(s, e).live
  {
    if !e.CallAssociate? { CreatedFramed(s, e); }
  }

  lemma LiveStep(s: State, e: Event, a: AssocId)
    requires Enabled(s, e) && KnownAssociation(s, a)
    ensures a in Step(s, e).live <==> a in s.live && !Removes(s, e, a)
  {
    if !e.CallAssociate? && !e.CallDisassociate? {
      LiveFramed(s, e);
    }
  }

  lemma LiveFramed(s: State, e: Event)
    requires Enabled(s, e) && !e.CallAssociate? && !e.CallDisassociate?
    ensures Step(s, e).live == s.live
  {
  }

  lemma {:induction false} RemovesKnown(ss: seq<State>, es: seq<Event>, j: nat, k: nat, a: AssocId)
    requires IsRun(ss, es) && j <= k < |es| && Removes(ss[j], es[j], a)
    ensures KnownAssociation(ss[k], a)
  {
    if j == k {
      RunInv(ss, es, j);
      assert WorkerOk(ss[j], es[j].w);
    } else {
      RemovesKnown(ss, es, j, k - 1, a);
      assert StepAt(ss, es, k - 1);
      KnownStays(ss[k - 1], es[k - 1], a);
    }
  }

  lemma KnownStays(s: State, e: Event, a: AssocId)
    requires Enabled(s, e) && KnownAssociation(s, a)
    ensures KnownAssociation(Step(s, e), a)
  {
    Ec2Framed(s, e);
    var t :| t in s.created && s.created[t].id == a;
    assert Step(s, e).created[t].id == a;
  }

  // ---- Unforced disassociation ----

  /** Event e disassociates association a of row i, which is not forced, or deleted meanwhile. */
  ghost predicate RemovesUnforced(s: State, e: Event, i: RowId, a: AssocId) {
    Removes(s, e, a) && s.pcs[e.w].row == i && (i in s.rows ==> !s.rows[i].force)
  }

  /** When an unforced row's association is disassociated, no assignment uses it. */
  lemma UnforcedUnused(ss: seq<State>, es: seq<Event>, k: nat, i: RowId, a: AssocId)
    requires IsRun(ss, es) && k < |es| && RemovesUnforced(ss[k], es[k], i, a)
    ensures i in ss[k].rows ==> Leaving(ss[k].rows[i]) && ss[k].rows[i].assoc == Some(a)
    ensures !HasAssignments(ss[k], a)
  {
    RunInv(ss, es, k);
    assert WorkerOk(ss[k], es[k].w) && (i in ss[k].rows ==> RowOk(ss[k], i));
    Unused(ss[k], i, a);
  }

  /** And none ever uses it again. */
  lemma {:induction false} UnforcedNeverUsedAgain(ss: seq<State>, es: seq<Event>, j: nat, k: nat, i: RowId, a: AssocId)
    requires IsRun(ss, es)
    requires j < k < |ss| && RemovesUnforced(ss[j], es[j], i, a)
    ensures !HasAssignments(ss[k], a)
  {
    UnforcedUnused(ss, es, j, i, a);
    if k > j + 1 { UnforcedNeverUsedAgain(ss, es, j, k - 1, i, a); }
    assert StepAt(ss, es, k - 1);
    if es[k - 1].InsertAssignment? {
      AttachedIsLive(ss, es, k - 1, es[k - 1].row);
      RemovesKnown(ss, es, j, k - 1, a);
      GoneExactly(ss, es, k - 1, a);
    }
  }

  // ---- Deleting excess ENIs ----

  /** Whenever a worker is about to call DeleteNetworkInterface, the ENI has no attachment row, live or
      not, and can get none: it has left the branch_enis table for good. */
  lemma PurgedHasNoRow(ss: seq<State>, es: seq<Event>, k: nat, w: Worker)
    requires IsRun(ss, es) && k < |ss| && w in ss[k].pcs && ss[k].pcs[w].Purged?
    ensures ss[k].pcs[w].eni !in ss[k].enis
    ensures forall i :: i in ss[k].rows ==> ss[k].rows[i].branch != ss[k].pcs[w].eni
  {
    RunInv(ss, es, k);
    assert WorkerOk(ss[k], w);
    forall i | i in ss[k].rows ensures ss[k].rows[i].branch != ss[k].pcs[w].eni { assert RowOk(ss[k], i); }
  }
}
