/** The attachment protocol as a state machine: database tables, EC2, advisory locks and the
    local state of every worker, with one event per committed transaction or EC2 call.
    A statement that fails, or whose guard does not hold, changes nothing and is no event; a
    worker whose operation returns early, fails or crashes only ends its transaction (EndTx). */
module AttachmentProtocol {
  import opened Option
  import opened AttachmentTables

  type Worker = nat

  /** An association as EC2 records it. */
  datatype Association = Association(id: AssocId, trunk: Eni, branch: Eni, vlan: nat)

  /** Where a worker (an inline caller or a background work item) stands. In every state but the last it has
      taken the advisory lock of its row; it loses the lock with the connection that holds it, while what
      it commits goes through connections of their own. */
  datatype Pc =
    | Locked(row: RowId)
    | Associating(row: RowId, token: Token, trunk: Eni, branch: Eni, vlan: nat)
    | Associated(row: RowId, assoc: AssocId)
    | Refused(row: RowId)
    | Disassociating(row: RowId, assoc: AssocId, force: bool)
    | Reverting(row: RowId)
    | Cleared(row: RowId, assoc: AssocId)
    | Disassociated(row: RowId)
    | Purged(eni: Eni)

  datatype State = State(
    rows: Rows,
    nextRow: RowId,                   // the serial column: ids are never reused
    drawn: map<RowId, Token>,         // the client token drawn for every row there ever was
    enis: set<Eni>,                   // the branch_enis table
    allEnis: set<Eni>,                // every branch ENI EC2 ever created
    assignments: map<TaskId, AssocId>,
    created: map<Token, Association>, // EC2: the association each client token produced
    live: set<AssocId>,               // EC2: the associations that exist now
    locks: map<RowId, Worker>,
    pcs: map<Worker, Pc>)             // workers with an open transaction

  /** How the query for assignments goes: it lists them all, fails, or its rows break off unnoticed. */
  datatype Listing = Complete | QueryFailed | CutShort

  datatype Event =
    | CreateEni(eni: Eni)
    | StartAssociation(branch: Eni, trunk: Eni, idx: nat, token: Token)
    | Acquire(w: Worker, row: RowId)
    | LoadForAssociation(w: Worker)
    | CallAssociate(w: Worker, answer: AssocId, lost: bool) // lost: EC2 acted, the worker saw an error
    | RefuseAssociate(w: Worker)                            // a persistent error, and EC2 did not act
    | CommitAttached(w: Worker)
    | CommitFailed(w: Worker)
    | StartDissociation(row: RowId, force: bool)
    | LoadForDisassociation(w: Worker)
    | Recheck(w: Worker, listing: Listing)
    | CommitRevert(w: Worker)
    | CallDisassociate(w: Worker, lost: bool)               // removed, or found to be gone already
    | CommitUnattached(w: Worker)
    | LoseLock(w: Worker)                                   // its connection drops, and it goes on without noticing
    | EndTx(w: Worker)
    | InsertAssignment(task: TaskId, row: RowId)
    | DeleteAssignment(task: TaskId)
    | PurgeExcess(w: Worker, eni: Eni)                      // the selected ENI, however stale the selection

  const Init := State(map[], 0, map[], {}, {}, map[], map[], {}, map[], map[])

  predicate HasAssignments(s: State, a: AssocId) {
    exists t :: t in s.assignments && s.assignments[t] == a
  }

  predicate KnownAssociation(s: State, a: AssocId) {
    exists t :: t in s.created && s.created[t].id == a
  }

  predicate HoldsLock(s: State, w: Worker)
    requires w in s.pcs && !s.pcs[w].Purged?
  {
    s.pcs[w].row in s.locks && s.locks[s.pcs[w].row] == w
  }

  /** No row was ever given the token. */
  predicate FreshToken(s: State, token: Token) {
    forall i :: i in s.drawn ==> s.drawn[i] != token
  }

  /** EC2's promise about client tokens: a token seen before is answered with the association it
      produced, and a new token gets an association id never used before. */
  predicate Idempotent(s: State, token: Token, a: AssocId) {
    if token in s.created then s.created[token].id == a else !KnownAssociation(s, a)
  }

  /** Which events can happen: what the code reaches, and what the environment promises (fresh
      serials, uuids and ENI ids, and idempotent client tokens). */
  predicate Enabled(s: State, e: Event) {
    match e
    case CreateEni(eni) => eni !in s.allEnis
    case StartAssociation(branch, trunk, idx, token) =>
      FreshToken(s, token) && branch in s.enis && !Clashes(s.rows, branch, trunk, idx)
    case Acquire(w, row) => w !in s.pcs && row !in s.locks
    case LoadForAssociation(w) =>
      && w in s.pcs && s.pcs[w].Locked? && HoldsLock(s, w)
      && s.pcs[w].row in s.rows && s.rows[s.pcs[w].row].phase.Attaching?
    case CallAssociate(w, a, lost) => w in s.pcs && s.pcs[w].Associating? && Idempotent(s, s.pcs[w].token, a)
    case RefuseAssociate(w) => w in s.pcs && s.pcs[w].Associating?
    case CommitAttached(w) => w in s.pcs && s.pcs[w].Associated?
    case CommitFailed(w) => w in s.pcs && s.pcs[w].Refused?
    case StartDissociation(row, force) =>
      && row in s.rows && s.rows[row].assoc.Some?
      && !s.rows[row].phase.Unattaching? && !s.rows[row].phase.Unattached?
      && (force || !HasAssignments(s, s.rows[row].assoc.value))
    case LoadForDisassociation(w) =>
      && w in s.pcs && s.pcs[w].Locked? && HoldsLock(s, w) && s.pcs[w].row in s.rows
      && s.rows[s.pcs[w].row].phase.Unattaching? && s.rows[s.pcs[w].row].assoc.Some?
    case Recheck(w, listing) => w in s.pcs && s.pcs[w].Disassociating?
    case CommitRevert(w) => w in s.pcs && s.pcs[w].Reverting? && HoldsLock(s, w)
    case CallDisassociate(w, lost) => w in s.pcs && s.pcs[w].Cleared?
    case CommitUnattached(w) => w in s.pcs && s.pcs[w].Disassociated?
    case LoseLock(w) => w in s.pcs
    case EndTx(w) => w in s.pcs
    case InsertAssignment(task, row) =>
      task !in s.assignments && row in s.rows && s.rows[row].phase.Attached? && s.rows[row].assoc.Some?
    case DeleteAssignment(task) => task in s.assignments
    case PurgeExcess(w, eni) => w !in s.pcs && eni in s.enis && !HasLiveRow(s.rows, eni)
  }

  /** The effect of an event that is enabled, table by table. */
  function Step(s: State, e: Event): State
    requires Enabled(s, e)
  {
    State(RowsAfter(s, e), if e.StartAssociation? then s.nextRow + 1 else s.nextRow, DrawnAfter(s, e), EnisAfter(s, e),
          if e.CreateEni? then s.allEnis + {e.eni} else s.allEnis, AssignmentsAfter(s, e), CreatedAfter(s, e),
          LiveAfter(s, e), LocksAfter(s, e), PcsAfter(s, e))
  }

  function RowsAfter(s: State, e: Event): Rows
    requires Enabled(s, e)
  {
    match e
    case StartAssociation(branch, trunk, idx, token) =>
      s.rows[s.nextRow := Row(branch, trunk, idx, token, None, Attaching, false)]
    case CommitAttached(w) => MarkAttached(s.rows, s.pcs[w].row, s.pcs[w].assoc, Attaching)
    case CommitFailed(w) => MarkFailed(s.rows, s.pcs[w].row, Attaching)
    case StartDissociation(row, force) => MarkUnattaching(s.rows, row, force)
    case CommitRevert(w) => MarkReverted(s.rows, s.pcs[w].row)
    case CommitUnattached(w) => MarkUnattached(s.rows, s.pcs[w].row)
    case PurgeExcess(w, eni) => WithoutBranch(s.rows, eni)
    case _ => s.rows
  }

  function DrawnAfter(s: State, e: Event): map<RowId, Token> {
    if e.StartAssociation? then s.drawn[s.nextRow := e.token] else s.drawn
  }

  function EnisAfter(s: State, e: Event): set<Eni> {
    if e.CreateEni? then s.enis + {e.eni} else if e.PurgeExcess? then s.enis - {e.eni} else s.enis
  }

  function AssignmentsAfter(s: State, e: Event): map<TaskId, AssocId>
    requires Enabled(s, e)
  {
    match e
    case InsertAssignment(task, row) => s.assignments[task := s.rows[row].assoc.value]
    case DeleteAssignment(task) => s.assignments - {task}
    case PurgeExcess(w, eni) => WithoutAssociations(s, eni)
    case _ => s.assignments
  }

  /** AssociateTrunkInterface takes effect, as the first call with the token. */
  predicate Creates(s: State, e: Event)
    requires Enabled(s, e)
  {
    e.CallAssociate? && s.pcs[e.w].token !in s.created
  }

  function CreatedAfter(s: State, e: Event): map<Token, Association>
    requires Enabled(s, e)
  {
    if Creates(s, e)
    then var pc := s.pcs[e.w]; s.created[pc.token := Association(e.answer, pc.trunk, pc.branch, pc.vlan)]
    else s.created
  }

  function LiveAfter(s: State, e: Event): set<AssocId>
    requires Enabled(s, e)
  {
    if Creates(s, e) then s.live + {e.answer}
    else if e.CallDisassociate? then s.live - {s.pcs[e.w].assoc}
    else s.live
  }

  /** The worker's transaction ends with the event: its advisory lock is released and it is gone. A query that
      fails leaves a transaction that cannot commit any more, so the revert it would bring is rolled back. */
  predicate Ends(s: State, e: Event)
    requires Enabled(s, e)
  {
    || e.EndTx? || e.CommitRevert? || ((e.CallAssociate? || e.CallDisassociate?) && e.lost)
    || (e.Recheck? && !s.pcs[e.w].force && e.listing.QueryFailed?)
  }

  function LocksAfter(s: State, e: Event): map<RowId, Worker>
    requires Enabled(s, e)
  {
    if e.Acquire? then s.locks[e.row := e.w]
    else if e.LoseLock? || Ends(s, e) then WithoutLocks(s, e.w)
    else s.locks
  }

  function PcsAfter(s: State, e: Event): map<Worker, Pc>
    requires Enabled(s, e)
  {
    if Ends(s, e) then s.pcs - {e.w}
    else if Proceeds(e) then s.pcs[e.w := PcAfter(s, e)]
    else s.pcs
  }

  /** The events that take their worker further. */
  predicate Proceeds(e: Event) {
    || e.Acquire? || e.LoadForAssociation? || e.CallAssociate? || e.RefuseAssociate? || e.CommitAttached?
    || e.CommitFailed? || e.LoadForDisassociation? || e.Recheck? || e.CallDisassociate? || e.CommitUnattached?
    || e.PurgeExcess?
  }

  function PcAfter(s: State, e: Event): Pc
    requires Enabled(s, e) && Proceeds(e) && !Ends(s, e)
  {
    match e
    case Acquire(w, row) => Locked(row)
    case LoadForAssociation(w) =>
      var r := s.rows[s.pcs[w].row];
      Associating(s.pcs[w].row, r.token, r.trunk, r.branch, r.idx)
    case CallAssociate(w, a, lost) => Associated(s.pcs[w].row, a)
    case RefuseAssociate(w) => Refused(s.pcs[w].row)
    case LoadForDisassociation(w) =>
      var r := s.rows[s.pcs[w].row];
      Disassociating(s.pcs[w].row, r.assoc.value, r.force)
    case Recheck(w, listing) =>
      if !s.pcs[w].force && listing.Complete? && HasAssignments(s, s.pcs[w].assoc)
      then Reverting(s.pcs[w].row) else Cleared(s.pcs[w].row, s.pcs[w].assoc)
    case CallDisassociate(w, lost) => Disassociated(s.pcs[w].row)
    case PurgeExcess(w, eni) => Purged(eni)
    case CommitAttached(w) => Locked(s.pcs[w].row)
    case CommitFailed(w) => Locked(s.pcs[w].row)
    case CommitUnattached(w) => Locked(s.pcs[w].row)
  }

  function WithoutLocks(s: State, w: Worker): map<RowId, Worker> {
    s.locks - (set i | i in s.locks && s.locks[i] == w)
  }

  /** The assignments left after the rows of a branch ENI are deleted: that foreign key cascades too. */
  function WithoutAssociations(s: State, branch: Eni): map<TaskId, AssocId> {
    s.assignments -
    (set t | t in s.assignments &&
             exists i :: i in s.rows && s.rows[i].branch == branch && s.rows[i].assoc == Some(s.assignments[t]))
  }
}
