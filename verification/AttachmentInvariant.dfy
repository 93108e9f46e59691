/** What every event of the attachment protocol keeps, although a worker may lose its lock and go on. */
module AttachmentInvariant {
  import opened Option
  import opened AttachmentTables
  import opened AttachmentProtocol

  predicate Leaving(r: Row) { r.phase.Unattaching? || r.phase.Unattached? }

  /** One row against its ENI, its token and what EC2 made of that token. */
  ghost predicate RowOk(s: State, i: RowId)
    requires i in s.rows
  {
    var r := s.rows[i];
    && i in s.drawn && s.drawn[i] == r.token && r.branch in s.enis
    && (r.assoc.Some? <==> r.phase.Attached? || Leaving(r))
    && (r.token in s.created ==>
          s.created[r.token] == Association(s.created[r.token].id, r.trunk, r.branch, r.idx))
    && (r.assoc.Some? ==> r.token in s.created && s.created[r.token].id == r.assoc.value)
    && ((r.phase.Attaching? || r.phase.Attached?) && r.token in s.created ==> s.created[r.token].id in s.live)
    && (r.phase.Unattached? ==> r.assoc.value !in s.live)
    && (r.phase.Attaching? || r.phase.Attached? ==> !r.force)
  }

  ghost predicate RowsOk(s: State) {
    forall i :: i in s.rows ==> RowOk(s, i)
  }

  /** Live rows share neither a branch nor a trunk slot. */
  ghost predicate RowsDistinct(s: State) {
    forall i, j :: i in s.rows && j in s.rows && i != j && LivePhase(s.rows[i].phase) && LivePhase(s.rows[j].phase) ==>
      && s.rows[i].branch != s.rows[j].branch
      && (s.rows[i].trunk, s.rows[i].idx) != (s.rows[j].trunk, s.rows[j].idx)
  }

  /** Every row had a token of its own, and every association comes from the token of a row. */
  ghost predicate TokensOk(s: State) {
    && (forall i :: i in s.drawn ==> i < s.nextRow)
    && (forall i, j :: i in s.drawn && j in s.drawn && s.drawn[i] == s.drawn[j] ==> i == j)
    && (forall t :: t in s.created ==> !FreshToken(s, t))
  }

  ghost predicate Ec2Ok(s: State) {
    && (forall t, u :: t in s.created && u in s.created && t != u ==> s.created[t].id != s.created[u].id)
    && (forall a :: a in s.live ==> KnownAssociation(s, a))
  }

  /** An association that some assignment uses belongs to a row, which is attached or forced out. */
  ghost predicate AssignmentsOk(s: State) {
    && (forall i, t :: i in s.rows && t in s.assignments && s.rows[i].assoc == Some(s.assignments[t]) ==>
          s.rows[i].phase.Attached? || s.rows[i].force)
    && (forall t :: t in s.assignments ==> HasRow(s, s.assignments[t]))
  }

  ghost predicate HasRow(s: State, a: AssocId) {
    exists i :: i in s.rows && s.rows[i].assoc == Some(a)
  }

  /** The association is the one that EC2 made of the row's token. */
  ghost predicate Made(s: State, i: RowId, a: AssocId) {
    i in s.drawn && s.drawn[i] in s.created && s.created[s.drawn[i]].id == a
  }

  /** What a worker loaded from its row stays true of the row, wherever the row has got to meanwhile, with or
      without the lock; and no worker ever reverts a row. */
  ghost predicate WorkerOk(s: State, w: Worker)
    requires w in s.pcs
  {
    match s.pcs[w]
    case Locked(_) => true
    case Associating(i, token, trunk, branch, vlan) =>
      && i in s.drawn && s.drawn[i] == token
      && (i in s.rows ==> s.rows[i].trunk == trunk && s.rows[i].branch == branch && s.rows[i].idx == vlan)
    case Associated(i, a) => Made(s, i, a)
    case Refused(_) => true
    case Disassociating(i, a, force) =>
      Made(s, i, a) && (i in s.rows ==> Leaving(s.rows[i]) && s.rows[i].force == force)
    case Reverting(_) => false // an unforced row on its way out is never in use
    case Cleared(i, a) => Made(s, i, a) && (i in s.rows ==> Leaving(s.rows[i]))
    case Disassociated(i) =>
      && i in s.drawn && s.drawn[i] in s.created && s.created[s.drawn[i]].id !in s.live
      && (i in s.rows ==> Leaving(s.rows[i]))
    case Purged(eni) => eni in s.allEnis && eni !in s.enis
  }

  ghost predicate WorkersOk(s: State) {
    s.enis <= s.allEnis && forall w :: w in s.pcs ==> WorkerOk(s, w)
  }

  ghost predicate Inv(s: State) {
    RowsOk(s) && RowsDistinct(s) && TokensOk(s) && Ec2Ok(s) && AssignmentsOk(s) && WorkersOk(s)
  }

  lemma InvInit()
    ensures Inv(Init)
  {
  }

  /** Two rows with one association id are one row. */
  lemma AssociationOwner(s: State, i: RowId, j: RowId)
    requires RowsOk(s) && TokensOk(s) && Ec2Ok(s) && i in s.rows && j in s.rows
    requires s.rows[i].assoc.Some? && s.rows[i].assoc == s.rows[j].assoc
    ensures i == j
  {
    assert RowOk(s, i) && RowOk(s, j);
  }

  lemma InvStep(s: State, e: Event)
    requires Inv(s) && Enabled(s, e)
    ensures Inv(Step(s, e))
  {
    RowsOkStep(s, e);
    RowsDistinctStep(s, e);
    TokensOkStep(s, e);
    Ec2OkStep(s, e);
    AssignmentsOkStep(s, e);
    WorkersOkStep(s, e);
  }

  /** What one event may do to one row: nothing, or one move along the protocol's edges, never
      touching which branch, trunk slot and token the row stands for, nor an association id once set. */
  ghost predicate Moves(r: Row, r': Row) {
    match (r.phase, r'.phase) {
      case (Attaching, Attached) => r' == r.(phase := Attached, assoc := r'.assoc)
      case (Attaching, Failed) => r' == r.(phase := Failed)
      case (Attached, Unattaching) => r' == r.(phase := Unattaching, force := r'.force)
      case (Unattaching, Unattached) => r' == r.(phase := Unattached)
      case _ => r' == r
    }
  }

  lemma NoRevert(s: State, e: Event)
    requires WorkersOk(s) && Enabled(s, e)
    ensures !e.CommitRevert?
  {
  }

  predicate Finishes(e: Event) {
    e.CommitAttached? || e.CommitFailed? || e.CommitUnattached?
  }

  /** Rows move only along the edges of the protocol; `failed` and `unattached` are final. */
  lemma RowMoves(s: State, e: Event, i: RowId)
    requires RowsOk(s) && TokensOk(s) && WorkersOk(s) && Enabled(s, e) && i in s.rows && i in Step(s, e).rows
    ensures Moves(s.rows[i], Step(s, e).rows[i])
  {
    NoRevert(s, e);
    assert RowOk(s, i);
    if Finishes(e) {
      assert WorkerOk(s, e.w);
      FinishMoves(s, e, i);
    } else {
      OtherMoves(s, e, i);
    }
  }

  lemma OtherMoves(s: State, e: Event, i: RowId)
    requires Enabled(s, e) && !Finishes(e) && !e.CommitRevert? && i in s.rows && i in Step(s, e).rows
    requires RowOk(s, i) && i != s.nextRow
    ensures Moves(s.rows[i], Step(s, e).rows[i])
  {
  }

  /** The guarded updates hit a row only if it is still attaching, the unguarded one a row on its way out. */
  lemma FinishMoves(s: State, e: Event, i: RowId)
    requires Enabled(s, e) && Finishes(e) && i in s.rows && RowOk(s, i) && WorkerOk(s, e.w)
    ensures i in Step(s, e).rows && Moves(s.rows[i], Step(s, e).rows[i])
  {
  }

  /** Rows appear only by startAssociation, in phase attaching and without an association id. */
  lemma RowAppears(s: State, e: Event, i: RowId)
    requires Enabled(s, e) && i !in s.rows && i in Step(s, e).rows
    ensures e.StartAssociation? && i == s.nextRow
    ensures Step(s, e).rows[i] == Row(e.branch, e.trunk, e.idx, e.token, None, Attaching, false)
    ensures e.branch in s.enis && !Clashes(s.rows, e.branch, e.trunk, e.idx)
  {
  }

  // ---- Rows ----

  lemma RowsOkStep(s: State, e: Event)
    requires Inv(s) && Enabled(s, e)
    ensures RowsOk(Step(s, e))
  {
    NoRevert(s, e);
    forall i | i in Step(s, e).rows ensures RowOk(Step(s, e), i) {
      if Finishes(e) {
        RowOkFinish(s, e, i);
      } else if e.CallAssociate? {
        RowOkAssociate(s, e, i);
      } else if e.CallDisassociate? {
        RowOkDisassociate(s, e, i);
      } else {
        RowOkOther(s, e, i);
      }
    }
  }

  lemma RowOkFinish(s: State, e: Event, i: RowId)
    requires RowsOk(s) && WorkersOk(s) && Enabled(s, e) && Finishes(e) && i in Step(s, e).rows
    ensures RowOk(Step(s, e), i)
  {
    assert WorkerOk(s, e.w) && RowOk(s, i);
  }

  lemma RowOkAssociate(s: State, e: Event, i: RowId)
    requires RowsOk(s) && TokensOk(s) && WorkersOk(s) && Enabled(s, e) && e.CallAssociate? && i in s.rows
    ensures RowOk(Step(s, e), i)
  {
    assert WorkerOk(s, e.w) && RowOk(s, i);
  }

  lemma RowOkDisassociate(s: State, e: Event, i: RowId)
    requires RowsOk(s) && TokensOk(s) && Ec2Ok(s) && WorkersOk(s)
    requires Enabled(s, e) && e.CallDisassociate? && i in s.rows
    ensures RowOk(Step(s, e), i)
  {
    assert WorkerOk(s, e.w) && RowOk(s, i);
  }

  lemma RowOkOther(s: State, e: Event, i: RowId)
    requires RowsOk(s) && TokensOk(s) && Enabled(s, e) && !e.CommitRevert? && i in Step(s, e).rows
    requires !Finishes(e) && !e.CallAssociate? && !e.CallDisassociate?
    ensures RowOk(Step(s, e), i)
  {
    if i in s.rows { assert RowOk(s, i); }
    if e.StartAssociation? || e.StartDissociation? || e.PurgeExcess? || e.CreateEni? {
      RowOkTables(s, e, i);
    } else {
      TablesFramed(s, e);
    }
  }

  lemma RowOkTables(s: State, e: Event, i: RowId)
    requires TokensOk(s) && Enabled(s, e) && i in Step(s, e).rows && (i in s.rows ==> RowOk(s, i))
    requires e.StartAssociation? || e.StartDissociation? || e.PurgeExcess? || e.CreateEni?
    ensures RowOk(Step(s, e), i)
  {
  }

  lemma TablesFramed(s: State, e: Event)
    requires Enabled(s, e) && !Finishes(e) && !e.CommitRevert? && !e.CallAssociate? && !e.CallDisassociate?
    requires !e.StartAssociation? && !e.StartDissociation? && !e.PurgeExcess? && !e.CreateEni?
    ensures var s' := Step(s, e);
            && s'.rows == s.rows && s'.nextRow == s.nextRow && s'.drawn == s.drawn && s'.enis == s.enis
            && s'.created == s.created && s'.live == s.live
  {
  }

  lemma RowsDistinctStep(s: State, e: Event)
    requires Inv(s) && Enabled(s, e)
    ensures RowsDistinct(Step(s, e))
  {
    var rows' := Step(s, e).rows;
    forall i, j | i in rows' && j in rows' && i != j && LivePhase(rows'[i].phase) && LivePhase(rows'[j].phase)
      ensures rows'[i].branch != rows'[j].branch
      ensures (rows'[i].trunk, rows'[i].idx) != (rows'[j].trunk, rows'[j].idx)
    {
      RowOrigin(s, e, i);
      RowOrigin(s, e, j);
    }
  }

  /** Either the row was there before, or it is the one just inserted. */
  lemma RowOrigin(s: State, e: Event, i: RowId)
    requires RowsOk(s) && TokensOk(s) && WorkersOk(s) && Enabled(s, e) && i in Step(s, e).rows
    ensures i in s.rows ==> RowOk(s, i) && Moves(s.rows[i], Step(s, e).rows[i])
    ensures i !in s.rows ==> e.StartAssociation? && i == s.nextRow
    ensures i !in s.rows ==> Step(s, e).rows[i] == Row(e.branch, e.trunk, e.idx, e.token, None, Attaching, false)
    ensures i !in s.rows ==> !Clashes(s.rows, e.branch, e.trunk, e.idx)
  {
    if i in s.rows { RowMoves(s, e, i); } else { RowAppears(s, e, i); }
  }

  // ---- Tokens and EC2 ----

  lemma TokensOkStep(s: State, e: Event)
    requires TokensOk(s) && WorkersOk(s) && Enabled(s, e)
    ensures TokensOk(Step(s, e))
  {
    if e.StartAssociation? {
      forall t | t in s.created ensures !FreshToken(Step(s, e), t) {
        var i :| i in s.drawn && s.drawn[i] == t;
        assert Step(s, e).drawn[i] == t;
      }
    } else {
      DrawnFramed(s, e);
      if e.CallAssociate? {
        assert WorkerOk(s, e.w);
        AssociatedToken(s, e);
      } else {
        CreatedFramed(s, e);
      }
    }
  }

  lemma DrawnFramed(s: State, e: Event)
    requires Enabled(s, e) && !e.StartAssociation?
    ensures Step(s, e).drawn == s.drawn && Step(s, e).nextRow == s.nextRow
  {
    if e.CallAssociate? { AssociatedToken(s, e); }
  }

  lemma AssociatedToken(s: State, e: Event)
    requires Enabled(s, e) && e.CallAssociate?
    ensures forall t :: t in Step(s, e).created ==> t in s.created || t == s.pcs[e.w].token
    ensures Step(s, e).drawn == s.drawn && Step(s, e).nextRow == s.nextRow
  {
  }

  lemma Ec2OkStep(s: State, e: Event)
    requires Ec2Ok(s) && Enabled(s, e)
    ensures Ec2Ok(Step(s, e))
  {
    forall a | a in Step(s, e).live ensures KnownAssociation(Step(s, e), a) {
      LiveKnown(s, e, a);
    }
  }

  lemma LiveKnown(s: State, e: Event, a: AssocId)
    requires Enabled(s, e) && a in Step(s, e).live && (a in s.live ==> KnownAssociation(s, a))
    ensures KnownAssociation(Step(s, e), a)
  {
    if e.CallAssociate? {
      AssociatedKnown(s, e, a);
    } else {
      CreatedFramed(s, e);
    }
  }

  lemma CreatedFramed(s: State, e: Event)
    requires Enabled(s, e) && !e.CallAssociate?
    ensures Step(s, e).created == s.created && Step(s, e).live <= s.live
  {
  }

  lemma AssociatedKnown(s: State, e: Event, a: AssocId)
    requires Enabled(s, e) && e.CallAssociate? && a in Step(s, e).live && (a in s.live ==> KnownAssociation(s, a))
    ensures KnownAssociation(Step(s, e), a)
  {
    var s' := Step(s, e);
    if a in s.live {
      var t :| t in s.created && s.created[t].id == a;
      assert t in s'.created && s'.created[t].id == a;
    } else {
      assert s'.created[s.pcs[e.w].token].id == a;
    }
  }

  /** EC2 never forgets what a token produced, and only a new association becomes live. */
  lemma Ec2Framed(s: State, e: Event)
    requires Enabled(s, e)
    ensures forall t :: t in s.created ==> t in Step(s, e).created && Step(s, e).created[t] == s.created[t]
    ensures forall a :: a in Step(s, e).live && KnownAssociation(s, a) ==> a in s.live
  {
    if !e.CallAssociate? { CreatedFramed(s, e); }
  }

  // ---- Assignments ----

  lemma AssignmentsOkStep(s: State, e: Event)
    requires Inv(s) && Enabled(s, e)
    ensures AssignmentsOk(Step(s, e))
  {
    var s' := Step(s, e);
    forall i, t | i in s'.rows && t in s'.assignments && s'.rows[i].assoc == Some(s'.assignments[t])
      ensures s'.rows[i].phase.Attached? || s'.rows[i].force
    {
      AssignmentOkStep(s, e, i, t);
    }
    forall t | t in s'.assignments ensures HasRow(s', s'.assignments[t]) {
      AssignedRowStep(s, e, t);
    }
  }

  lemma AssignmentOkStep(s: State, e: Event, i: RowId, t: TaskId)
    requires Inv(s) && Enabled(s, e) && i in Step(s, e).rows && t in Step(s, e).assignments
    requires Step(s, e).rows[i].assoc == Some(Step(s, e).assignments[t])
    ensures Step(s, e).rows[i].phase.Attached? || Step(s, e).rows[i].force
  {
    if e.InsertAssignment? {
      if t == e.task { AssociationOwner(s, i, e.row); }
    } else {
      OtherKeepsUse(s, e, i, t);
    }
  }

  lemma OtherKeepsUse(s: State, e: Event, i: RowId, t: TaskId)
    requires RowsOk(s) && TokensOk(s) && AssignmentsOk(s) && WorkersOk(s) && Enabled(s, e) && !e.InsertAssignment?
    requires i in Step(s, e).rows && t in Step(s, e).assignments
    requires Step(s, e).rows[i].assoc == Some(Step(s, e).assignments[t])
    ensures Step(s, e).rows[i].phase.Attached? || Step(s, e).rows[i].force
  {
    RowOrigin(s, e, i);
    AssignmentsShrink(s, e, t);
    UseMoves(s, e, i, t);
  }

  lemma UseMoves(s: State, e: Event, i: RowId, t: TaskId)
    requires Enabled(s, e) && i in s.rows && i in Step(s, e).rows && Moves(s.rows[i], Step(s, e).rows[i])
    requires t in s.assignments && Step(s, e).rows[i].assoc == Some(s.assignments[t])
    requires s.rows[i].assoc == Some(s.assignments[t]) ==> s.rows[i].phase.Attached? || s.rows[i].force
    ensures Step(s, e).rows[i].phase.Attached? || Step(s, e).rows[i].force
  {
  }

  lemma AssignmentsShrink(s: State, e: Event, t: TaskId)
    requires Enabled(s, e) && !e.InsertAssignment? && t in Step(s, e).assignments
    ensures t in s.assignments && s.assignments[t] == Step(s, e).assignments[t]
  {
  }

  lemma AssignedRowStep(s: State, e: Event, t: TaskId)
    requires RowsOk(s) && TokensOk(s) && AssignmentsOk(s) && WorkersOk(s)
    requires Enabled(s, e) && t in Step(s, e).assignments
    ensures HasRow(Step(s, e), Step(s, e).assignments[t])
  {
    if e.InsertAssignment? && t == e.task {
      assert Step(s, e).rows[e.row].assoc == Some(Step(s, e).assignments[t]);
    } else {
      if !e.InsertAssignment? { AssignmentsShrink(s, e, t); }
      var i :| i in s.rows && s.rows[i].assoc == Some(s.assignments[t]);
      UsedRowStays(s, e, i, t);
      RowMoves(s, e, i);
    }
  }

  lemma UsedRowStays(s: State, e: Event, i: RowId, t: TaskId)
    requires Enabled(s, e) && i in s.rows && t in s.assignments && s.rows[i].assoc == Some(s.assignments[t])
    requires t in Step(s, e).assignments && Step(s, e).assignments[t] == s.assignments[t]
    ensures i in Step(s, e).rows
  {
  }

  // ---- Workers ----

  lemma WorkersOkStep(s: State, e: Event)
    requires Inv(s) && Enabled(s, e)
    ensures WorkersOk(Step(s, e))
  {
    var s' := Step(s, e);
    forall w | w in s'.pcs ensures WorkerOk(s', w) {
      if w in s.pcs && s.pcs[w] == s'.pcs[w] {
        OtherWorker(s, e, w);
      } else {
        ActingWorker(s, e, w);
      }
    }
    EnisFramed(s, e);
  }

  lemma EnisFramed(s: State, e: Event)
    requires Enabled(s, e)
    ensures s.allEnis <= Step(s, e).allEnis && (s.enis <= s.allEnis ==> Step(s, e).enis <= Step(s, e).allEnis)
    ensures forall eni :: eni in s.allEnis && eni !in s.enis ==> eni !in Step(s, e).enis
  {
  }

  /** What a worker knows is about its row's fixed columns, a one-way phase, and what EC2 never forgets. */
  lemma OtherWorker(s: State, e: Event, w: Worker)
    requires RowsOk(s) && TokensOk(s) && WorkersOk(s) && Enabled(s, e)
    requires w in s.pcs && w in Step(s, e).pcs && s.pcs[w] == Step(s, e).pcs[w]
    ensures WorkerOk(Step(s, e), w)
  {
    assert WorkerOk(s, w);
    EnisFramed(s, e);
    if !s.pcs[w].Purged? {
      Ec2Framed(s, e);
      DrawnKept(s, e);
      if s.pcs[w].row in Step(s, e).rows { RowOrigin(s, e, s.pcs[w].row); }
      WorkerFramed(s, Step(s, e), w);
    }
  }

  lemma DrawnKept(s: State, e: Event)
    requires TokensOk(s) && Enabled(s, e)
    ensures forall i :: i in s.drawn ==> i in Step(s, e).drawn && Step(s, e).drawn[i] == s.drawn[i] && i != s.nextRow
  {
  }

  lemma WorkerFramed(s: State, s': State, w: Worker)
    requires w in s.pcs && w in s'.pcs && s'.pcs[w] == s.pcs[w] && !s.pcs[w].Purged? && WorkerOk(s, w)
    requires forall i :: i in s.drawn ==> i in s'.drawn && s'.drawn[i] == s.drawn[i]
    requires forall t :: t in s.created ==> t in s'.created && s'.created[t] == s.created[t]
    requires forall a :: a in s'.live && KnownAssociation(s, a) ==> a in s.live
    requires var i := s.pcs[w].row; i in s'.rows && i in s.drawn ==> i in s.rows && Moves(s.rows[i], s'.rows[i])
    ensures WorkerOk(s', w)
  {
  }

  lemma ActingWorker(s: State, e: Event, w: Worker)
    requires RowsOk(s) && TokensOk(s) && Ec2Ok(s) && AssignmentsOk(s) && WorkersOk(s) && Enabled(s, e)
    requires w in Step(s, e).pcs && (w in s.pcs ==> s.pcs[w] != Step(s, e).pcs[w])
    ensures WorkerOk(Step(s, e), w)
  {
    if w in s.pcs { assert WorkerOk(s, w); }
    if e.Recheck? {
      if !s.pcs[w].force { Unused(s, s.pcs[w].row, s.pcs[w].assoc); }
      RecheckedWorker(s, e, w);
    } else {
      MovedWorker(s, e, w);
    }
  }

  /** Nothing uses the association of a row that is on its way out unforced, or gone. */
  lemma Unused(s: State, i: RowId, a: AssocId)
    requires RowsOk(s) && TokensOk(s) && Ec2Ok(s) && AssignmentsOk(s) && Made(s, i, a)
    requires i in s.rows ==> Leaving(s.rows[i]) && !s.rows[i].force
    ensures !HasAssignments(s, a)
  {
    forall t | t in s.assignments ensures s.assignments[t] != a {
      var j :| j in s.rows && s.rows[j].assoc == Some(s.assignments[t]);
      assert RowOk(s, j);
    }
  }

  lemma RecheckedWorker(s: State, e: Event, w: Worker)
    requires Enabled(s, e) && e.Recheck? && w in Step(s, e).pcs && w in s.pcs
    requires WorkerOk(s, w) && s.pcs[w] != Step(s, e).pcs[w] && s.pcs[w].Disassociating?
    requires !s.pcs[w].force ==> !HasAssignments(s, s.pcs[w].assoc)
    ensures WorkerOk(Step(s, e), w)
  {
  }

  lemma MovedWorker(s: State, e: Event, w: Worker)
    requires RowsOk(s) && s.enis <= s.allEnis && Enabled(s, e) && !e.Recheck?
    requires w in Step(s, e).pcs && (w in s.pcs ==> WorkerOk(s, w) && s.pcs[w] != Step(s, e).pcs[w])
    ensures WorkerOk(Step(s, e), w)
  {
    if e.LoadForAssociation? || e.LoadForDisassociation? {
      assert RowOk(s, s.pcs[e.w].row);
      LoadedWorker(s, e, w);
    } else {
      TurnedWorker(s, e, w);
    }
  }

  lemma LoadedWorker(s: State, e: Event, w: Worker)
    requires Enabled(s, e) && (e.LoadForAssociation? || e.LoadForDisassociation?) && RowOk(s, s.pcs[e.w].row)
    requires w in Step(s, e).pcs && (w in s.pcs ==> s.pcs[w] != Step(s, e).pcs[w])
    ensures WorkerOk(Step(s, e), w)
  {
  }

  lemma TurnedWorker(s: State, e: Event, w: Worker)
    requires s.enis <= s.allEnis && Enabled(s, e) && !e.Recheck? && !e.LoadForAssociation? && !e.LoadForDisassociation?
    requires w in Step(s, e).pcs && (w in s.pcs ==> WorkerOk(s, w) && s.pcs[w] != Step(s, e).pcs[w])
    ensures WorkerOk(Step(s, e), w)
  {
    if e.CallAssociate? || e.CallDisassociate? {
      AnsweredWorker(s, e, w);
    } else {
      CommittedWorker(s, e, w);
    }
  }

  lemma AnsweredWorker(s: State, e: Event, w: Worker)
    requires Enabled(s, e) && (e.CallAssociate? || e.CallDisassociate?)
    requires w in Step(s, e).pcs && w in s.pcs && WorkerOk(s, w) && s.pcs[w] != Step(s, e).pcs[w]
    ensures WorkerOk(Step(s, e), w)
  {
  }

  lemma CommittedWorker(s: State, e: Event, w: Worker)
    requires s.enis <= s.allEnis && Enabled(s, e) && !e.Recheck? && !e.LoadForAssociation? && !e.LoadForDisassociation?
    requires !e.CallAssociate? && !e.CallDisassociate?
    requires w in Step(s, e).pcs && (w in s.pcs ==> s.pcs[w] != Step(s, e).pcs[w])
    ensures WorkerOk(Step(s, e), w)
  {
  }
}
