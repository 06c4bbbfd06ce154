/** The `agent_operations` table: immutable request rows, found again by (runtime, request id), whose
    status only moves by compare-and-swap. */
module AgentOperationTable {
  import opened Wrappers

  datatype Status = Pending | Approved | Rejected | Succeeded | Failed | Stale | Expired

  datatype Capability = DeploymentScale | RegistryPullCheck | MaintenanceCleanup | OtherCapability

  datatype Target = Target(namespace: string, name: string)

  /** The decoded `parameters` column. `Absent` is the empty column, `Malformed` one that does not decode. */
  datatype Parameters =
    | Absent
    | Malformed
    | Scale(target: Target, replicas: int)
    | Cleanup(alert: nat, node: string, recipe: string)
    | Pull(pullNode: string, registry: string, image: string)

  datatype Approval = Approval(user: nat, at: int)

  /** The columns that are written once, when the request is filed. */
  datatype Request = Request(
    operationId: string,
    runtimeId: nat,
    requestId: string,
    capability: Option<Capability>,
    parameters: Parameters,
    resourceVersion: nat,
    expiresAt: Option<int>)

  /** A row: the request, and the columns a status change may write. */
  datatype Operation = Operation(
    request: Request,
    status: Status,
    errorSummary: string,
    approval: Option<Approval>,
    completedAt: Option<int>)

  /** What identifies a request: the key of the unique index over runtime and request id. */
  datatype RequestKey = RequestKey(runtimeId: nat, requestId: string)

  /** The rows by operation id, and the unique index over runtime and request id. */
  datatype Table = Table(rows: map<string, Operation>, byRequest: map<RequestKey, string>)

  datatype CreateResult = Stored(row: Operation, created: bool) | Refused

  function KeyOf(op: Operation): RequestKey {
    RequestKey(op.request.runtimeId, op.request.requestId)
  }

  /** The columns a request may not leave empty. */
  predicate Complete(r: Request) {
    && r.runtimeId != 0
    && r.requestId != ""
    && r.operationId != ""
    && r.capability.Some?
    && !r.parameters.Absent?
    && r.expiresAt.Some?
  }

  /** The index and the rows describe each other, and every row is complete. */
  ghost predicate Indexed(table: Table) {
    && (forall id <- table.rows ::
          && table.rows[id].request.operationId == id
          && Complete(table.rows[id].request)
          && KeyOf(table.rows[id]) in table.byRequest
          && table.byRequest[KeyOf(table.rows[id])] == id)
    && (forall k <- table.byRequest ::
          && table.byRequest[k] in table.rows
          && KeyOf(table.rows[table.byRequest[k]]) == k)
  }

  function Created(table: Table, op: Operation): Table {
    if !Complete(op.request) || KeyOf(op) in table.byRequest || op.request.operationId in table.rows then
      table
    else
      Table(table.rows[op.request.operationId := op], table.byRequest[KeyOf(op) := op.request.operationId])
  }

  predicate Matches(table: Table, id: string, from: Status) {
    id in table.rows && table.rows[id].status == from
  }

  /** The row after a status change that carries an optional approver and an optional completion time. */
  function Moved(row: Operation, to: Status, error: string, approver: Option<Approval>,
      completedAt: Option<int>): Operation {
    row.(
      status := to,
      errorSummary := error,
      approval := if approver.Some? then approver else row.approval,
      completedAt := if completedAt.Some? then completedAt else row.completedAt)
  }

  function Swapped(
    table: Table, id: string, from: Status, to: Status, error: string, approver: Option<Approval>,
    completedAt: Option<int>
  ): Table {
    if Matches(table, id, from) then
      table.(rows := table.rows[id := Moved(table.rows[id], to, error, approver, completedAt)])
    else
      table
  }

  lemma CreatedKeepsIndexed(table: Table, op: Operation)
    requires Indexed(table)
    ensures Indexed(Created(table, op))
  {
  }

  lemma SwappedKeepsIndexed(
    table: Table, id: string, from: Status, to: Status, error: string, approver: Option<Approval>,
    completedAt: Option<int>)
    requires Indexed(table)
    ensures Indexed(Swapped(table, id, from, to, error, approver, completedAt))
  {
  }

  /** One (runtime, request id) names one row. */
  lemma RequestNamesOneRow(table: Table, a: string, b: string)
    requires Indexed(table)
    requires a in table.rows && b in table.rows
    requires KeyOf(table.rows[a]) == KeyOf(table.rows[b])
    ensures a == b
  {
    assert table.byRequest[KeyOf(table.rows[a])] == a;
  }

  predicate Terminal(status: Status) {
    status != Pending && status != Approved
  }

  /** The swap itself does not protect a finished row: it moves exactly for a caller that expects its final status. */
  lemma FinishedRowMovesIff(
    table: Table, id: string, from: Status, to: Status, error: string, approver: Option<Approval>,
    completedAt: Option<int>)
    requires id in table.rows && Terminal(table.rows[id].status) && to != table.rows[id].status
    ensures Swapped(table, id, from, to, error, approver, completedAt).rows[id] != table.rows[id]
            <==> from == table.rows[id].status
  {
    assert Matches(table, id, from) <==> from == table.rows[id].status;
  }

  /** The store object whose two transactions the handlers call. */
  class OperationStore {
    var rows: map<string, Operation>
    var byRequest: map<RequestKey, string>

    ghost function View(): Table
      reads this
    {
      Table(rows, byRequest)
    }

    ghost predicate Valid()
      reads this
    {
      Indexed(View())
    }

    constructor ()
      ensures Valid() && rows == map[]
    {
      rows, byRequest := map[], map[];
    }

    /** A retried request gets the first row back, whatever it asks for now. */
    method Create(op: Operation) returns (result: CreateResult)
      requires Valid()
      modifies this
      ensures Valid()
      ensures View() == Created(old(View()), op)
      ensures result.Refused? ==> View() == old(View())
      ensures result.Refused? <==>
                !Complete(op.request) || (KeyOf(op) !in old(byRequest) && op.request.operationId in old(rows))
      ensures result.Stored? ==>
                && KeyOf(result.row) == KeyOf(op)
                && result.row.request.operationId in rows
                && rows[result.row.request.operationId] == result.row
                && result.created == (KeyOf(op) !in old(byRequest))
                && (result.created ==> result.row == op)
                && (!result.created ==> View() == old(View()))
    {
      if !Complete(op.request) {
        return Refused;
      }
      if KeyOf(op) in byRequest {
        return Stored(rows[byRequest[KeyOf(op)]], false);
      }
      if op.request.operationId in rows {
        return Refused;
      }
      CreatedKeepsIndexed(View(), op);
      rows := rows[op.request.operationId := op];
      byRequest := byRequest[KeyOf(op) := op.request.operationId];
      return Stored(op, true);
    }

    /** The compare-and-swap: it changes the row exactly when it says so, and no other row. */
    method UpdateStatus(
      id: string, from: Status, to: Status, error: string, approver: Option<Approval>, completedAt: Option<int>
    ) returns (changed: bool)
      requires Valid()
      modifies this
      ensures Valid()
      ensures View() == Swapped(old(View()), id, from, to, error, approver, completedAt)
      ensures changed == Matches(old(View()), id, from)
      ensures rows.Keys == old(rows.Keys)
      ensures forall other <- rows :: other != id || !changed ==> rows[other] == old(rows)[other]
      ensures changed ==> rows[id].request == old(rows)[id].request
    {
      changed := id in rows && rows[id].status == from;
      if changed {
        SwappedKeepsIndexed(View(), id, from, to, error, approver, completedAt);
        rows := rows[id := Moved(rows[id], to, error, approver, completedAt)];
      }
    }
  }
}
