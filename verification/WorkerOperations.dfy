/**
  The persisted worker status of one scaler and the helpers that read the list
  of tracked operations together with its legacy single-operation mirror.
*/
module WorkerOperations {
  import opened Common

  // Operation types and phases are strings in the persisted object, so values
  // other than the two known ones can be read back.
  datatype OperationType = Create | Delete | Unknown(name: string)
  datatype Phase = Running | WaitingForObservation | OtherPhase(name: string)

  datatype Operation = Operation(
    opType: OperationType,
    targetNode: string,
    phase: Phase,
    job: string,
    requestedCount: int,
    startedAt: Option<int>,
    finishedAt: Option<int>)

  datatype Status = Status(
    target: int,
    ready: int,
    pendingCreate: int,
    pendingDelete: int,
    effective: int,
    operations: seq<Operation>,
    legacy: Option<Operation>)

  /** The plan is one object that planner and executor update in place. */
  class WorkerPlan {
    var status: Status
    var workersToCreate: int
    var workersToDelete: int

    constructor (status: Status, workersToCreate: int, workersToDelete: int)
      ensures this.status == status
      ensures this.workersToCreate == workersToCreate && this.workersToDelete == workersToDelete
    {
      this.status := status;
      this.workersToCreate := workersToCreate;
      this.workersToDelete := workersToDelete;
    }

    method SyncLegacyActiveOperation()
      modifies this`status
      ensures status == WithMirror(old(status))
    {
      if |status.operations| == 0 {
        status := status.(legacy := None);
        return;
      }
      var legacyCopy := status.operations[0];
      status := status.(legacy := Some(legacyCopy));
    }
  }

  /** How many workers an operation stands for; a missing count reads as one. */
  function Weight(op: Operation): (w: int)
    ensures w >= 1
  {
    if op.requestedCount > 0 then op.requestedCount else 1
  }

  lemma MissingCountIsOne(op: Operation)
    ensures op.requestedCount >= 1 ==> Weight(op) == op.requestedCount
    ensures op.requestedCount < 1 ==> Weight(op) == 1
  {
  }

  /** Workers of one type covered by the first n operations. */
  function TrackedTo(ops: seq<Operation>, t: OperationType, n: nat): (sum: int)
    requires n <= |ops|
    ensures sum >= 0
  {
    if n == 0 then 0
    else TrackedTo(ops, t, n - 1) + if ops[n - 1].opType == t then Weight(ops[n - 1]) else 0
  }

  /** Workers of one type covered by a list of operations. */
  function Tracked(ops: seq<Operation>, t: OperationType): int {
    TrackedTo(ops, t, |ops|)
  }

  /** The operations a reader of a status sees: the list, or else the mirror. */
  function ActiveOperations(s: Option<Status>): seq<Operation> {
    match s
    case None => []
    case Some(st) =>
      if |st.operations| > 0 then st.operations
      else if st.legacy.Some? then [st.legacy.value] else []
  }

  /** Nothing without a status; the mirrored operation, if any, when the list is empty; otherwise the list. */
  lemma ActiveOperationsExactly(s: Status)
    ensures ActiveOperations(None) == []
    ensures |s.operations| > 0 ==> ActiveOperations(Some(s)) == s.operations
    ensures s.operations == [] ==>
            match s.legacy
            case None => ActiveOperations(Some(s)) == []
            case Some(op) => ActiveOperations(Some(s)) == [op]
  {
  }

  predicate Mirrored(s: Status) {
    s.legacy == if |s.operations| == 0 then None else Some(s.operations[0])
  }

  function WithMirror(s: Status): (r: Status)
    ensures Mirrored(r) && r.operations == s.operations
    ensures r == s.(legacy := r.legacy)
  {
    s.(legacy := if |s.operations| == 0 then None else Some(s.operations[0]))
  }

  predicate AllUnit(ops: seq<Operation>) {
    forall i :: 0 <= i < |ops| ==> ops[i].requestedCount == 1
  }

  function Jobs(ops: seq<Operation>): set<string> {
    set i | 0 <= i < |ops| :: ops[i].job
  }

  method CloneActiveOperations(s: Option<Status>) returns (cloned: seq<Operation>)
    ensures cloned == ActiveOperations(s)
  {
    cloned := [];
    if s.None? {
      return;
    }
    if |s.value.operations| > 0 {
      for i := 0 to |s.value.operations|
        invariant cloned == s.value.operations[..i]
      {
        cloned := cloned + [s.value.operations[i]];
      }
      return;
    }
    if s.value.legacy.Some? {
      cloned := [s.value.legacy.value];
    }
  }

  method SumActiveOperationCounts(ops: seq<Operation>) returns (creates: int, deletes: int)
    ensures creates == Tracked(ops, Create) && deletes == Tracked(ops, Delete)
  {
    creates, deletes := 0, 0;
    for i := 0 to |ops|
      invariant creates == TrackedTo(ops, Create, i) && deletes == TrackedTo(ops, Delete, i)
    {
      match ops[i].opType {
        case Create => creates := creates + Weight(ops[i]);
        case Delete => deletes := deletes + Weight(ops[i]);
        case Unknown(_) =>
      }
    }
  }

  lemma {:induction false} TrackedPrefix(a: seq<Operation>, b: seq<Operation>, t: OperationType, n: nat)
    requires n <= |a|
    ensures TrackedTo(a + b, t, n) == TrackedTo(a, t, n)
  {
    if n > 0 {
      TrackedPrefix(a, b, t, n - 1);
    }
  }

  lemma TrackedAppend(ops: seq<Operation>, op: Operation, t: OperationType)
    ensures Tracked(ops + [op], t) == Tracked(ops, t) + if op.opType == t then Weight(op) else 0
  {
    TrackedPrefix(ops, [op], t, |ops|);
  }

  lemma {:induction false} TrackedConcat(a: seq<Operation>, b: seq<Operation>, t: OperationType, n: nat := |b|)
    requires n <= |b|
    ensures TrackedTo(a + b, t, |a| + n) == Tracked(a, t) + TrackedTo(b, t, n)
  {
    if n == 0 {
      TrackedPrefix(a, b, t, |a|);
    } else {
      TrackedConcat(a, b, t, n - 1);
    }
  }
}
