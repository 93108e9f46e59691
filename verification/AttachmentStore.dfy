/** The database side of the attachment operations, in place: each method is one function of the
    service with its retry loop, and takes the tables exactly one step of the protocol further, or
    leaves them as they are. */
module AttachmentStore {
  import opened Option
  import opened AttachmentTables
  import Protocol = AttachmentProtocol
  import opened AttachmentInvariant
  import opened AttachmentLocks

  /** How one try of a serializable transaction ends: at commit, or before its writes are visible. */
  datatype Try = Commits | Serialization | OtherError

  datatype Failure = UniqueViolation | NoSuchEni | NotFound | StillAssigned | Database | NoRowUpdated

  /** Whether the loop around a transaction reaches a commit: only serialization failures are retried,
      and running out of tries stands for the context that expires. */
  predicate Succeeds(tries: seq<Try>) {
    exists n :: 0 <= n < |tries| && tries[n].Commits? && forall m :: 0 <= m < n ==> tries[m].Serialization?
  }

  /** The loop of tries: true when one of them commits. */
  method RunTries(tries: seq<Try>) returns (commits: bool)
    ensures commits <==> Succeeds(tries)
  {
    var n := 0;
    while n < |tries|
      invariant n <= |tries| && forall m :: 0 <= m < n ==> tries[m].Serialization?
    {
      if !tries[n].Serialization? { return tries[n].Commits?; }
      n := n + 1;
    }
    return false;
  }

  /** The row takes the branch ENI or the trunk's slot: it has one of them, and is not through with it. */
  predicate Occupies(r: Row, branch: Eni, trunk: Eni, idx: nat) {
    && (r.phase.Attaching? || r.phase.Attached? || r.phase.Unattaching?)
    && (r.branch == branch || (r.trunk == trunk && r.idx == idx))
  }

  class Store {
    var rows: Rows
    var nextRow: RowId
    var enis: set<Eni>
    var assignments: map<TaskId, AssocId>

    constructor ()
      ensures Holds(Protocol.Init)
    {
      rows, nextRow, enis, assignments := map[], 0, {}, map[];
    }

    /** The tables are those of the protocol state. */
    ghost predicate Holds(s: Protocol.State)
      reads this
    {
      rows == s.rows && nextRow == s.nextRow && enis == s.enis && assignments == s.assignments
    }

    /** startAssociation: insert an attaching row, unless a unique index or the foreign key forbids it. */
    method StartAssociation(branch: Eni, trunk: Eni, idx: nat, token: Token, commits: bool, ghost s: Protocol.State)
      returns (r: Result<RowId, Failure>)
      requires Holds(s) && Inv(s) && Protocol.FreshToken(s, token)
      modifies this
      ensures r.Ok? <==> commits && Protocol.Enabled(s, Protocol.StartAssociation(branch, trunk, idx, token))
      ensures Holds(if r.Ok? then Protocol.Step(s, Protocol.StartAssociation(branch, trunk, idx, token)) else s)
      ensures r.Ok? <==> commits && branch in enis && forall i :: i in old(rows) ==> !Occupies(old(rows)[i], branch, trunk, idx)
      ensures r == Err(UniqueViolation) <==> exists i :: i in old(rows) && Occupies(old(rows)[i], branch, trunk, idx)
      ensures r == Err(NoSuchEni) ==> branch !in enis
      ensures rows == if r.Ok? then old(rows)[r.value := Row(branch, trunk, idx, token, None, Attaching, false)]
                      else old(rows)
      ensures r.Ok? ==> r.value !in s.rows && nextRow == r.value + 1
    {
      assert forall i :: i in s.rows ==> RowOk(s, i);
      if Clashes(rows, branch, trunk, idx) { return Err(UniqueViolation); }
      if branch !in enis { return Err(NoSuchEni); }
      if !commits { return Err(Database); }
      r := Ok(nextRow);
      rows := rows[nextRow := Row(branch, trunk, idx, token, None, Attaching, false)];
      nextRow := nextRow + 1;
    }

    /** finishAssociationInDB: the row is attached as soon as a try commits, unless it is attaching no more;
        and while nobody has lost the row's lock, it always is. */
    method FinishAssociationInDB(id: RowId, assoc: AssocId, tries: seq<Try>, ghost s: Protocol.State, ghost w: Protocol.Worker)
      returns (err: Option<Failure>)
      requires Holds(s) && w in s.pcs && s.pcs[w] == Protocol.Associated(id, assoc)
      modifies this`rows
      ensures err.None? <==> Succeeds(tries) && id in s.rows && s.rows[id].phase.Attaching?
      ensures Guarded(s, id) ==> (err.None? <==> Succeeds(tries))
      ensures Holds(if err.None? then Protocol.Step(s, Protocol.CommitAttached(w)) else s)
      ensures err == Some(Database) <==> !Succeeds(tries)
      ensures rows == if err.None? then old(rows)[id := old(rows)[id].(phase := Attached, assoc := Some(assoc))]
                      else old(rows)
    {
      assert Guarded(s, id) ==> InPhase(s, w);
      var commits := RunTries(tries);
      if !commits { return Some(Database); }
      if id !in rows || !rows[id].phase.Attaching? { return Some(NoRowUpdated); }
      rows := rows[id := rows[id].(phase := Attached, assoc := Some(assoc))];
      return None;
    }

    /** The same for an association that EC2 refuses for good. */
    method FailAssociationInDB(id: RowId, tries: seq<Try>, ghost s: Protocol.State, ghost w: Protocol.Worker)
      returns (err: Option<Failure>)
      requires Holds(s) && w in s.pcs && s.pcs[w] == Protocol.Refused(id)
      modifies this`rows
      ensures err.None? <==> Succeeds(tries) && id in s.rows && s.rows[id].phase.Attaching?
      ensures Guarded(s, id) ==> (err.None? <==> Succeeds(tries))
      ensures Holds(if err.None? then Protocol.Step(s, Protocol.CommitFailed(w)) else s)
      ensures err == Some(Database) <==> !Succeeds(tries)
      ensures rows == if err.None? then old(rows)[id := old(rows)[id].(phase := Failed)] else old(rows)
    {
      assert Guarded(s, id) ==> InPhase(s, w);
      var commits := RunTries(tries);
      if !commits { return Some(Database); }
      if id !in rows || !rows[id].phase.Attaching? { return Some(NoRowUpdated); }
      rows := rows[id := rows[id].(phase := Failed)];
      return None;
    }

    /** hasAssignments: an error of the query, or whether it listed an assignment of the association. */
    method HasAssignments(assoc: AssocId, listing: Protocol.Listing) returns (r: Result<bool, Failure>)
      ensures if listing.QueryFailed? then r == Err(Database) else r.Ok?
      ensures r.Ok? ==> (r.value <==> listing.Complete? && exists t :: t in assignments && assignments[t] == assoc)
    {
      if listing.QueryFailed? { return Err(Database); }
      var todo := if listing.CutShort? then {} else assignments.Keys;
      while todo != {}
        invariant todo <= assignments.Keys && (todo != {} ==> listing.Complete?)
        invariant listing.Complete? ==> forall t :: t in assignments && t !in todo ==> assignments[t] != assoc
        decreases todo
      {
        var t :| t in todo;
        if assignments[t] == assoc { return Ok(true); }
        todo := todo - {t};
      }
      return Ok(false);
    }

    /** The row with the association id, as the lookup by association_id finds it. */
    method FindByAssociation(assoc: AssocId) returns (r: Option<RowId>)
      ensures r.Some? ==> r.value in rows && rows[r.value].assoc == Some(assoc)
      ensures r.None? ==> forall i :: i in rows ==> rows[i].assoc != Some(assoc)
    {
      var todo := rows.Keys;
      while todo != {}
        invariant todo <= rows.Keys
        invariant forall i :: i in rows && i !in todo ==> rows[i].assoc != Some(assoc)
        decreases todo
      {
        var i :| i in todo;
        if rows[i].assoc == Some(assoc) { return Some(i); }
        todo := todo - {i};
      }
      return None;
    }

    /** startDissociation: mark the association's row unattaching, unless it is on its way out already; it
        succeeds exactly when there is such a row and it is leaving, forced out or in nobody's use. */
    method StartDissociation(assoc: AssocId, force: bool, tries: seq<Try>, ghost s: Protocol.State)
      returns (r: Result<RowId, Failure>)
      requires Holds(s) && Inv(s)
      modifies this`rows
      ensures r.Ok? <==> Succeeds(tries) && exists i :: i in s.rows && s.rows[i].assoc == Some(assoc) &&
                                                        (Leaving(s.rows[i]) || force || !Protocol.HasAssignments(s, assoc))
      ensures r == Err(Database) <==> !Succeeds(tries)
      ensures r == Err(NotFound) <==> Succeeds(tries) && forall i :: i in s.rows ==> s.rows[i].assoc != Some(assoc)
      ensures r.Ok? ==> r.value in s.rows && s.rows[r.value].assoc == Some(assoc)
      ensures if r.Ok? && !Leaving(s.rows[r.value])
              then Protocol.Enabled(s, Protocol.StartDissociation(r.value, force)) &&
                   Holds(Protocol.Step(s, Protocol.StartDissociation(r.value, force)))
              else Holds(s)
      ensures rows == if r.Ok? && !Leaving(s.rows[r.value])
                      then old(rows)[r.value := old(rows)[r.value].(phase := Unattaching, force := force)] else old(rows)
    {
      var commits := RunTries(tries);
      if !commits { return Err(Database); }
      var found := FindByAssociation(assoc);
      if found.None? { return Err(NotFound); }
      var id := found.value;
      forall i | i in s.rows && s.rows[i].assoc == Some(assoc) ensures i == id { AssociationOwner(s, i, id); }
      if Leaving(rows[id]) { return Ok(id); }
      if !force {
        var used := HasAssignments(assoc, Protocol.Complete);
        if used.value { return Err(StillAssigned); }
      }
      rows := rows[id := rows[id].(phase := Unattaching, force := force)];
      return Ok(id);
    }

    /** The check that finishDisassociation repeats under the lock: it goes on to EC2 exactly when it is
        forced or its query does not fail, and never finds an assignment that makes it revert the row. */
    method Recheck(id: RowId, assoc: AssocId, force: bool, listing: Protocol.Listing,
                   ghost s: Protocol.State, ghost w: Protocol.Worker) returns (r: Result<bool, Failure>)
      requires Holds(s) && Inv(s) && w in s.pcs && s.pcs[w] == Protocol.Disassociating(id, assoc, force)
      ensures r == if force || !listing.QueryFailed? then Ok(true) else Err(Database)
      ensures var s' := Protocol.Step(s, Protocol.Recheck(w, listing));
              if r.Ok? then w in s'.pcs && s'.pcs[w] == Protocol.Cleared(id, assoc) else w !in s'.pcs
    {
      assert WorkerOk(s, w);
      if force { return Ok(true); }
      Unused(s, id, assoc);
      var used := HasAssignments(assoc, listing);
      if used.Err? { return used; }
      return Ok(!used.value);
    }

    /** finishDisassociationDoUpdate: the update to unattached has no guard and needs none. */
    method FinishDisassociationDoUpdate(id: RowId, tries: seq<Try>, ghost s: Protocol.State, ghost w: Protocol.Worker)
      returns (err: Option<Failure>)
      requires Holds(s) && w in s.pcs && s.pcs[w] == Protocol.Disassociated(id)
      modifies this`rows
      ensures err.None? <==> Succeeds(tries)
      ensures Holds(if err.None? then Protocol.Step(s, Protocol.CommitUnattached(w)) else s)
      ensures rows == if err.None? && id in old(rows) then old(rows)[id := old(rows)[id].(phase := Unattached)]
                      else old(rows)
    {
      var commits := RunTries(tries);
      if !commits { return Some(Database); }
      if id in rows {
        rows := rows[id := rows[id].(phase := Unattached)];
      }
      return None;
    }
  }
}
