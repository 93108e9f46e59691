/** The `branch_eni_attachments` table: its rows and the SQL statements that change them. */
module AttachmentTables {
  import opened Option

  // Identifiers are opaque to the protocol; only their equality matters.
  type RowId = nat
  type Eni = nat
  type Token = nat
  type AssocId = nat
  type TaskId = nat

  datatype Phase = Attaching | Attached | Unattaching | Unattached | Failed

  /** One row. `token` is association_token, `assoc` the nullable association_id,
      and `force` is false when the column is NULL or false. */
  datatype Row = Row(branch: Eni, trunk: Eni, idx: nat, token: Token,
                     assoc: Option<AssocId>, phase: Phase, force: bool)

  type Rows = map<RowId, Row>

  predicate LivePhase(p: Phase) {
    p.Attaching? || p.Attached? || p.Unattaching?
  }

  /** Whether a new live row for this branch and trunk slot would violate one of the
      partial unique indices over the live rows. */
  predicate Clashes(rows: Rows, branch: Eni, trunk: Eni, idx: nat) {
    exists i :: i in rows && LivePhase(rows[i].phase) &&
                (rows[i].branch == branch || (rows[i].trunk == trunk && rows[i].idx == idx))
  }

  predicate HasLiveRow(rows: Rows, branch: Eni) {
    exists i :: i in rows && LivePhase(rows[i].phase) && rows[i].branch == branch
  }

  /** UPDATE ... SET state = 'attached', association_id = assoc WHERE id = id AND state = expected. */
  function MarkAttached(rows: Rows, id: RowId, assoc: AssocId, expected: Phase): Rows {
    if id in rows && rows[id].phase == expected
    then rows[id := rows[id].(phase := Attached, assoc := Some(assoc))] else rows
  }

  /** UPDATE ... SET state = 'failed' WHERE id = id AND state = expected. */
  function MarkFailed(rows: Rows, id: RowId, expected: Phase): Rows {
    if id in rows && rows[id].phase == expected then rows[id := rows[id].(phase := Failed)] else rows
  }

  /** UPDATE ... SET state = 'unattaching', force = force WHERE association_id = (that of row id). */
  function MarkUnattaching(rows: Rows, id: RowId, force: bool): Rows {
    if id in rows then rows[id := rows[id].(phase := Unattaching, force := force)] else rows
  }

  /** UPDATE ... SET state = 'attached' WHERE id = id: the has-assignments revert, with no state guard. */
  function MarkReverted(rows: Rows, id: RowId): Rows {
    if id in rows then rows[id := rows[id].(phase := Attached)] else rows
  }

  /** UPDATE ... SET state = 'unattached' WHERE id = id, with no state guard. */
  function MarkUnattached(rows: Rows, id: RowId): Rows {
    if id in rows then rows[id := rows[id].(phase := Unattached)] else rows
  }

  /** The rows left after the branch ENI is deleted: the foreign key cascades. */
  function WithoutBranch(rows: Rows, branch: Eni): Rows {
    rows - (set i | i in rows && rows[i].branch == branch)
  }
}
