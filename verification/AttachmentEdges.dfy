/** Which event moves a row, and how: every edge of the protocol is crossed by its commit and by nothing else. */
module AttachmentEdges {
  import opened Option
  import opened AttachmentTables
  import opened AttachmentProtocol
  import opened AttachmentInvariant
  import opened AttachmentRuns

  /** The row after an event that leaves it in the table. */
  ghost function RowAfter(s: State, e: Event, i: RowId): Row
    requires Enabled(s, e) && i in s.rows
  {
    var r := s.rows[i];
    if e.CommitAttached? && s.pcs[e.w].row == i && r.phase.Attaching?
    then Row(r.branch, r.trunk, r.idx, r.token, Some(s.pcs[e.w].assoc), Attached, r.force)
    else if e.CommitFailed? && s.pcs[e.w].row == i && r.phase.Attaching?
    then Row(r.branch, r.trunk, r.idx, r.token, r.assoc, Failed, r.force)
    else if e.StartDissociation? && e.row == i
    then Row(r.branch, r.trunk, r.idx, r.token, r.assoc, Unattaching, e.force)
    else if e.CommitUnattached? && s.pcs[e.w].row == i
    then Row(r.branch, r.trunk, r.idx, r.token, r.assoc, Unattached, r.force)
    else r
  }

  lemma RowAfterStep(s: State, e: Event, i: RowId)
    requires TokensOk(s) && Enabled(s, e) && !e.CommitRevert? && i in s.rows && RowOk(s, i)
    ensures i in Step(s, e).rows <==> !(e.PurgeExcess? && e.eni == s.rows[i].branch)
    ensures i in Step(s, e).rows ==> Step(s, e).rows[i] == RowAfter(s, e, i)
  {
  }

  /** Over every run: a row is inserted exactly by startAssociation, attaching and with the columns asked for; it
      is deleted exactly with its branch ENI; and it crosses each edge exactly by the commit of that edge, by a
      worker of the row or a request for it, with the column that the commit carries. */
  lemma EdgesExact(ss: seq<State>, es: seq<Event>, k: nat, i: RowId)
    requires IsRun(ss, es) && k < |es|
    ensures var s, s', e := ss[k], ss[k + 1], es[k];
            && Enabled(s, e)
            && (i !in s.rows ==> (i in s'.rows <==> e.StartAssociation? && i == s.nextRow))
            && (i !in s.rows && i in s'.rows ==>
                  s'.rows[i] == Row(e.branch, e.trunk, e.idx, e.token, None, Attaching, false) && s'.nextRow == i + 1)
            && (i in s.rows ==> (i !in s'.rows <==> e.PurgeExcess? && e.eni == s.rows[i].branch))
            && (i in s.rows && i in s'.rows ==>
                  var r, r' := s.rows[i], s'.rows[i];
                  && (r.phase.Attaching? && r'.phase.Attached? <==>
                      e.CommitAttached? && s.pcs[e.w].row == i && r.phase.Attaching?)
                  && (r.phase.Attaching? && r'.phase.Failed? <==>
                      e.CommitFailed? && s.pcs[e.w].row == i && r.phase.Attaching?)
                  && (r.phase.Attached? && r'.phase.Unattaching? <==> e.StartDissociation? && e.row == i)
                  && (r.phase.Unattaching? && r'.phase.Unattached? <==>
                      e.CommitUnattached? && s.pcs[e.w].row == i && r.phase.Unattaching?)
                  && r' == r.(phase := r'.phase, assoc := r'.assoc, force := r'.force)
                  && r'.assoc == (if r.phase.Attaching? && r'.phase.Attached? then Some(s.pcs[e.w].assoc) else r.assoc)
                  && r'.force == (if r.phase.Attached? && r'.phase.Unattaching? then e.force else r.force)
                  && (r'.phase != r.phase ==>
                        (r.phase, r'.phase) in {(Attaching, Attached), (Attaching, Failed), (Attached, Unattaching),
                                                (Unattaching, Unattached)}))
  {
    RunInv(ss, es, k);
    assert StepAt(ss, es, k);
    NoRevert(ss[k], es[k]);
    if i in ss[k].rows {
      assert RowOk(ss[k], i);
      if es[k].CommitUnattached? { assert WorkerOk(ss[k], es[k].w); }
      RowAfterStep(ss[k], es[k], i);
    } else if i in ss[k + 1].rows {
      RowAppears(ss[k], es[k], i);
    } else {
      Inserted(ss[k], es[k]);
    }
  }

  lemma Inserted(s: State, e: Event)
    requires Enabled(s, e)
    ensures e.StartAssociation? ==> s.nextRow in Step(s, e).rows && Step(s, e).nextRow == s.nextRow + 1
  {
  }

  /** EC2 creates an association exactly by the first call with a token, and it joins the ENIs of the row that the
      token was drawn for; an association becomes live exactly then, and ceases to be exactly by a call to
      disassociate it. */
  lemma Ec2Exact(ss: seq<State>, es: seq<Event>, k: nat, t: Token, a: AssocId)
    requires IsRun(ss, es) && k < |es|
    ensures var s, s', e := ss[k], ss[k + 1], es[k];
            && Enabled(s, e)
            && (t in s'.created && t !in s.created <==> e.CallAssociate? && s.pcs[e.w].token == t && t !in s.created)
            && (t in s.created ==> t in s'.created && s'.created[t] == s.created[t])
            && (t in s'.created && t !in s.created ==>
                  && s'.created[t].id == e.answer && !KnownAssociation(s, e.answer)
                  && var i := s.pcs[e.w].row;
                     && i in s.drawn && s.drawn[i] == t
                     && (i in s.rows ==> s'.created[t] ==
                                         Association(e.answer, s.rows[i].trunk, s.rows[i].branch, s.rows[i].idx)))
            && (a in s'.live && a !in s.live <==>
                e.CallAssociate? && e.answer == a && s.pcs[e.w].token !in s.created && a !in s.live)
            && (a in s.live && a !in s'.live <==> e.CallDisassociate? && s.pcs[e.w].assoc == a && a in s.live)
  {
    RunInv(ss, es, k);
    assert StepAt(ss, es, k);
    if es[k].CallAssociate? { assert WorkerOk(ss[k], es[k].w); }
  }

  /** An assignment is made exactly for an attached row's association, and goes exactly when it is deleted or the
      ENI of its association's row is. An ENI enters its table when it is created and leaves it when it is purged. */
  lemma AssignmentsExact(ss: seq<State>, es: seq<Event>, k: nat, t: TaskId, eni: Eni)
    requires IsRun(ss, es) && k < |es|
    ensures var s, s', e := ss[k], ss[k + 1], es[k];
            && Enabled(s, e)
            && (t !in s.assignments ==> (t in s'.assignments <==> e.InsertAssignment? && e.task == t))
            && (t !in s.assignments && t in s'.assignments ==>
                  && e.row in s.rows && s.rows[e.row].phase.Attached?
                  && s.rows[e.row].assoc == Some(s'.assignments[t]))
            && (t in s.assignments && t in s'.assignments ==> s'.assignments[t] == s.assignments[t])
            && (t in s.assignments ==>
                  (t !in s'.assignments <==>
                   || e == DeleteAssignment(t)
                   || (e.PurgeExcess? && exists i :: i in s.rows && s.rows[i].branch == e.eni &&
                                                     s.rows[i].assoc == Some(s.assignments[t]))))
            && (eni in s'.enis <==> (eni in s.enis || e == CreateEni(eni)) && !(e.PurgeExcess? && e.eni == eni))
  {
    assert StepAt(ss, es, k);
  }

  /** An ENI is purged only while it has no row that is attaching, attached or unattaching, and no two such rows
      ever share a branch ENI or a trunk's slot. */
  lemma LiveRowsExclusive(ss: seq<State>, es: seq<Event>, k: nat, i: RowId, j: RowId)
    requires IsRun(ss, es) && k < |ss| && i in ss[k].rows && j in ss[k].rows
    requires ss[k].rows[i].phase in {Attaching, Attached, Unattaching}
    ensures k < |es| && es[k].PurgeExcess? ==> ss[k].rows[i].branch != es[k].eni
    ensures i != j && ss[k].rows[j].phase in {Attaching, Attached, Unattaching} ==>
              && ss[k].rows[i].branch != ss[k].rows[j].branch
              && !(ss[k].rows[i].trunk == ss[k].rows[j].trunk && ss[k].rows[i].idx == ss[k].rows[j].idx)
  {
    RunInv(ss, es, k);
    if k < |es| { assert StepAt(ss, es, k); }
    assert LivePhase(ss[k].rows[i].phase);
  }
}
