/** The `worker_jobs` table: rows and the single SQL statements that change them.

    Each statement is one atomic map update. Text columns that nothing branches on (messages,
    timestamps, payloads, error texts) are left out. */
module JobTable {
  import opened Basics
  import opened GenerationSteps

  type JobId = nat
  type WorkerName = string

  datatype JobKind = StartTask | StopTask | GenerateTask | ReanalyzeResult | OtherKind

  datatype JobStatus = Pending | Claimed | Running | Completed | Failed

  datatype Row = Row(kind: JobKind, taskId: int, key: Option<string>, status: JobStatus,
                     worker: Option<WorkerName>, process: Option<int>, steps: seq<Step>)

  type Table = map<JobId, Row>

  predicate Terminal(status: JobStatus) {
    status == Completed || status == Failed
  }

  /** The rows that `hasActiveJob` counts for a task and a kind. */
  predicate Active(row: Row, kind: JobKind, taskId: int) {
    row.kind == kind && row.taskId == taskId && (row.status == Pending || row.status == Claimed)
  }

  predicate HasActive(rows: Table, kind: JobKind, taskId: int) {
    exists id | id in rows :: Active(rows[id], kind, taskId)
  }

  predicate IsPending(rows: Table, id: JobId) {
    id in rows && rows[id].status == Pending
  }

  function PendingIds(rows: Table): set<int> {
    set id | id in rows && rows[id].status == Pending
  }

  /** SELECT ... WHERE status = 'pending' ORDER BY id ASC LIMIT 1 */
  function LowestPending(rows: Table): (found: Option<JobId>)
    ensures found.None? <==> PendingIds(rows) == {}
    ensures found.Some? ==> IsPending(rows, found.value)
    ensures found.Some? ==> forall id | IsPending(rows, id) :: found.value <= id
  {
    if PendingIds(rows) == {} then None
    else
      var least := Least(PendingIds(rows));
      assert forall id | IsPending(rows, id) :: id in PendingIds(rows);
      Some(least)
  }

  /** SELECT ... WHERE job_key = ? LIMIT 1 (the column has a unique index) */
  function ByKey(rows: Table, key: string): (found: Option<JobId>)
    ensures found.None? <==> forall id | id in rows :: rows[id].key != Some(key)
    ensures found.Some? ==> found.value in rows && rows[found.value].key == Some(key)
  {
    var matches: set<int> := set id | id in rows && rows[id].key == Some(key);
    if matches == {} then
      assert forall id | id in rows && rows[id].key == Some(key) :: id in matches;
      None
    else Some(Least(matches))
  }

  /** A job key is on one row at most: the column has a unique index. */
  predicate KeysUnique(rows: Table) {
    forall i, j | i in rows && j in rows && rows[i].key.Some? && rows[i].key == rows[j].key :: i == j
  }

  function NewRow(kind: JobKind, taskId: int, key: Option<string>, steps: seq<Step>): Row {
    Row(kind, taskId, key, Pending, None, None, steps)
  }

  /** UPDATE ... SET status = 'claimed', worker_id = ? WHERE id = ? AND status = 'pending' */
  function ClaimUpdate(rows: Table, id: JobId, w: WorkerName): Table {
    if IsPending(rows, id) then rows[id := rows[id].(status := Claimed, worker := Some(w))] else rows
  }

  /** finish_job_sync: status and process_id are written, whatever the row held. */
  function FinishUpdate(rows: Table, id: JobId, status: JobStatus, process: Option<int>): Table {
    if id in rows then rows[id := rows[id].(status := status, process := process)] else rows
  }

  /** update_job_process_sync */
  function ProcessUpdate(rows: Table, id: JobId, process: int): Table {
    if id in rows then rows[id := rows[id].(process := Some(process))] else rows
  }

  /** update_job_progress_sync: COALESCE keeps the stored steps when none are given. */
  function ProgressUpdate(rows: Table, id: JobId, steps: Option<seq<Step>>): Table {
    if id in rows then
      rows[id := rows[id].(status := Running, steps := if steps.Some? then steps.value else rows[id].steps)]
    else rows
  }

  /** complete_generate_job_sync */
  function CompleteUpdate(rows: Table, id: JobId, taskId: int, steps: Option<seq<Step>>): Table {
    if id in rows then
      rows[id := rows[id].(taskId := taskId, status := Completed,
                           steps := if steps.Some? then steps.value else rows[id].steps)]
    else rows
  }

  /** fail_generate_job_sync */
  function FailUpdate(rows: Table, id: JobId, steps: Option<seq<Step>>): Table {
    if id in rows then
      rows[id := rows[id].(status := Failed, steps := if steps.Some? then steps.value else rows[id].steps)]
    else rows
  }

  /** clear_stale_claimed_jobs_sync: one statement over every claimed row of the worker. */
  function ClearStale(rows: Table, w: WorkerName): Table {
    map id | id in rows ::
      if rows[id].status == Claimed && rows[id].worker == Some(w)
      then rows[id].(status := Pending, worker := None) else rows[id]
  }
}
