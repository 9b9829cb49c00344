/** The job-queue service of pkg/jobs/job-queue.go over the abstract `job_queue` table.
    Each operation returns the table after it, the queries it issued in order, and the
    Go `(value, error)` pair as a `Result`. JSON encoding and the database's own failures
    are inputs; the clock is the `now` parameter. */
module JobQueue {
  import opened Wrappers
  import opened Json
  import opened JobStore

  /** The four job types the code names. */
  datatype JobType = UserCreated | DataAnalysis | EmailNotification | DataExport

  /** The string a job type is stored as. */
  function TypeName(t: JobType): string {
    match t
    case UserCreated => "user_created"
    case DataAnalysis => "data_analysis"
    case EmailNotification => "email_notification"
    case DataExport => "data_export"
  }

  /** Distinct job types are stored as distinct strings. */
  lemma TypeNameInjective(a: JobType, b: JobType)
    ensures TypeName(a) == TypeName(b) <==> a == b
  {
  }

  /** `JobPayload`: the optional user id, user data and additional properties, the
      message, the recipients and the validation mode (Go zero values for absent ones). */
  datatype JobPayload = JobPayload(
    userId: Option<int>,
    userData: map<string, Json>,
    additionalProps: map<string, Json>,
    message: string,
    recipients: seq<string>,
    validationMode: string)

  /** The payload with every field at its Go zero value. */
  const EmptyPayload := JobPayload(None, map[], map[], "", [], "")

  /** The calls into the generated query package, with the parameters the Go code passes. */
  datatype Query =
    | CreateJob(jobType: string, payload: string, priority: Option<int>,
                maxRetries: Option<int>, scheduledAt: Option<Time>)
    | GetNextPendingJob
    | UpdateJobStatus(id: int, status: string, startedAt: Option<Time>,
                      completedAt: Option<Time>, errorMessage: Option<string>)
    | IncrementJobRetry(id: int, errorMessage: Option<string>)

  /** The outcome of one service call: the table afterwards, the queries issued, the result. */
  datatype Step<+T> = Step(table: Table, issued: seq<Query>, result: Result<T, string>)

  /** The text of `sql.ErrNoRows`. */
  const ErrNoRows := "sql: no rows in result set"

  /** Run an `UpdateJobStatus` query: a database fault is reported as is, an id with no row
      is `sql.ErrNoRows`, otherwise the table's status update. */
  function ExecUpdate(t: Table, q: Query, fault: Option<string>): (r: (Table, Result<JobRecord, string>))
    requires q.UpdateJobStatus?
    ensures r.1.Failure? ==> r.0 == t
    ensures fault.Some? ==> r.1 == Failure(fault.value)
    ensures fault.None? ==> (r.1.Success? <==> q.id in t.rows)
    ensures fault.None? && q.id !in t.rows ==> r.1 == Failure(ErrNoRows)
    ensures r.1.Success? ==>
      UpdateStatus(t, q.id, q.status, q.startedAt, q.completedAt, q.errorMessage) == Some((r.0, r.1.value))
  {
    if fault.Some? then (t, Failure(fault.value))
    else match UpdateStatus(t, q.id, q.status, q.startedAt, q.completedAt, q.errorMessage)
      case None => (t, Failure(ErrNoRows))
      case Some((t', row)) => (t', Success(row))
  }

  /** `EnqueueJob`: encode the payload, then insert a job with the given type and
      priority, three retries, and `scheduled_at` now. An encoding failure inserts
      nothing and issues no query. */
  function EnqueueJob(t: Table, jobType: JobType, payload: JobPayload, priority: int,
                      marshal: JobPayload -> Result<string, string>, fault: Option<string>,
                      now: Time): (r: Step<JobRecord>)
    ensures marshal(payload).Failure? ==>
      r == Step(t, [], Failure("failed to marshal payload: " + marshal(payload).error))
    ensures marshal(payload).Success? ==>
      r.issued == [CreateJob(TypeName(jobType), marshal(payload).value, Some(priority), Some(3), Some(now))]
    ensures marshal(payload).Success? && fault.Some? ==>
      r.table == t && r.result == Failure("failed to create job: " + fault.value)
    ensures r.result.Success? <==> marshal(payload).Success? && fault.None?
    ensures r.result.Success? ==>
      var job := r.result.value;
      job.jobType == TypeName(jobType) && job.payload == marshal(payload).value &&
      job.priority == Some(priority) && job.maxRetries == Some(3) &&
      job.scheduledAt == Some(now) && job.status == Pending && job.retryCount == Some(0) &&
      job.id == t.nextId && r.table.rows == t.rows[job.id := job]
    ensures Valid(t) ==> Valid(r.table)
    ensures Valid(t) && r.result.Success? ==> r.result.value.id != 0 && r.result.value.id !in t.rows
  {
    match marshal(payload)
    case Failure(e) => Step(t, [], Failure("failed to marshal payload: " + e))
    case Success(json) =>
      var q := CreateJob(TypeName(jobType), json, Some(priority), Some(3), Some(now));
      if fault.Some? then Step(t, [q], Failure("failed to create job: " + fault.value))
      else
        var (t', job) := Insert(t, q.jobType, q.payload, q.priority, q.maxRetries, q.scheduledAt, now);
        Step(t', [q], Success(job))
  }

  /** The status update `GetNextJob` issues for the job it selected. */
  function ClaimQuery(id: int, now: Time): Query {
    UpdateJobStatus(id, Processing, Some(now), None, None)
  }

  /** `GetNextJob`: select the best-ranked eligible job, mark it processing, and return
      the selected record with its status set to "processing". No selectable job is no
      job and no error; either query failing is an error and no job. */
  function GetNextJob(t: Table, eligible: seq<int>, selectFault: Option<string>,
                      updateFault: Option<string>, now: Time): (r: Step<Option<JobRecord>>)
    ensures |r.issued| >= 1 && r.issued[0] == GetNextPendingJob
    ensures r.result.Failure? || r.result == Success(None) ==> r.table == t
    ensures selectFault.Some? ==>
      r.issued == [GetNextPendingJob] && r.result == Failure("failed to get next job: " + selectFault.value)
    ensures selectFault.None? && SelectNext(t, eligible).None? ==>
      r.issued == [GetNextPendingJob] && r.result == Success(None)
    ensures selectFault.None? && SelectNext(t, eligible).Some? ==>
      r.issued == [GetNextPendingJob, ClaimQuery(SelectNext(t, eligible).value, now)]
    ensures selectFault.None? && SelectNext(t, eligible).Some? && updateFault.Some? ==>
      r.result == Failure("failed to update job status: " + updateFault.value)
    ensures selectFault.None? && SelectNext(t, eligible).Some? && updateFault.None? ==>
      var id := SelectNext(t, eligible).value;
      id in eligible && id in t.rows && id in r.table.rows &&
      (forall i :: 0 <= i < |eligible| && eligible[i] in t.rows ==> !Precedes(t.rows[eligible[i]], t.rows[id])) &&
      r.result == Success(Some(t.rows[id].(status := Processing))) &&
      r.table.rows == t.rows[id := r.table.rows[id]] &&
      SameJob(r.table.rows[id], t.rows[id]) && r.table.rows[id].status == Processing &&
      r.table.rows[id].startedAt == Some(now) &&
      r.table.rows[id].completedAt.None? && r.table.rows[id].errorMessage.None?
    ensures Valid(t) && r.result.Success? && r.result.value.Some? ==>
      r.result.value.value.id == SelectNext(t, eligible).value
    ensures r.result.Success? && r.result.value.None? ==> selectFault.None? && SelectNext(t, eligible).None?
    ensures Valid(t) ==> Valid(r.table)
  {
    if selectFault.Some? then
      Step(t, [GetNextPendingJob], Failure("failed to get next job: " + selectFault.value))
    else match SelectNext(t, eligible)
      case None => Step(t, [GetNextPendingJob], Success(None))
      case Some(id) =>
        var q := ClaimQuery(id, now);
        var (t', res) := ExecUpdate(t, q, updateFault);
        match res
        case Failure(e) => Step(t', [GetNextPendingJob, q], Failure("failed to update job status: " + e))
        case Success(_) => Step(t', [GetNextPendingJob, q], Success(Some(t.rows[id].(status := Processing))))
  }

  /** `CompleteJob`: mark the job completed now, clear its error message and keep its
      start time. */
  function CompleteJob(t: Table, id: int, fault: Option<string>, now: Time): (r: Step<()>)
    ensures r.issued == [UpdateJobStatus(id, Completed, None, Some(now), None)]
    ensures r.result.Success? <==> fault.None? && id in t.rows
    ensures r.result.Failure? ==> r.table == t
    ensures r.result.Success? ==>
      id in r.table.rows && r.table.rows == t.rows[id := r.table.rows[id]] &&
      SameJob(r.table.rows[id], t.rows[id]) && r.table.rows[id].status == Completed &&
      r.table.rows[id].completedAt == Some(now) && r.table.rows[id].errorMessage.None? &&
      r.table.rows[id].startedAt == t.rows[id].startedAt
    ensures Valid(t) ==> Valid(r.table)
  {
    var q := UpdateJobStatus(id, Completed, None, Some(now), None);
    var (t', res) := ExecUpdate(t, q, fault);
    Step(t', [q], if res.Success? then Success(()) else Failure(res.error))
  }

  /** `FailJob`: with `retry`, hand the id and message to the retry-increment query, whose
      effect on the table (`retried`) is not visible here; without it, mark the job failed
      now with the message, keeping its start time. */
  function FailJob(t: Table, id: int, message: string, retry: bool, updateFault: Option<string>,
                   retried: Result<Table, string>, now: Time): (r: Step<()>)
    ensures retry ==> r.issued == [IncrementJobRetry(id, Some(message))]
    ensures retry ==> (r.result.Success? <==> retried.Success?)
    ensures retry && retried.Success? ==> r.table == retried.value
    ensures !retry ==> r.issued == [UpdateJobStatus(id, Failed, None, Some(now), Some(message))]
    ensures !retry ==> (r.result.Success? <==> updateFault.None? && id in t.rows)
    ensures r.result.Failure? ==> r.table == t
    ensures !retry && r.result.Success? ==>
      id in r.table.rows && r.table.rows == t.rows[id := r.table.rows[id]] &&
      SameJob(r.table.rows[id], t.rows[id]) && r.table.rows[id].status == Failed &&
      r.table.rows[id].completedAt == Some(now) && r.table.rows[id].errorMessage == Some(message) &&
      r.table.rows[id].startedAt == t.rows[id].startedAt
    ensures !retry && Valid(t) ==> Valid(r.table)
  {
    if retry then
      var q := IncrementJobRetry(id, Some(message));
      match retried
      case Failure(e) => Step(t, [q], Failure(e))
      case Success(t') => Step(t', [q], Success(()))
    else
      var q := UpdateJobStatus(id, Failed, None, Some(now), Some(message));
      var (t', res) := ExecUpdate(t, q, updateFault);
      Step(t', [q], if res.Success? then Success(()) else Failure(res.error))
  }

  /** The four per-status counts `GetJobStats` reads. */
  datatype Stats = Stats(pending: int, processing: int, completed: int, failed: int)

  /** The number of rows with status `s`. */
  function CountStatus(t: Table, s: string): nat {
    |set id | id in t.rows && t.rows[id].status == s|
  }

  /** What the stats query reports for a table. */
  function StatsOf(t: Table): Stats {
    Stats(CountStatus(t, Pending), CountStatus(t, Processing), CountStatus(t, Completed), CountStatus(t, Failed))
  }

  /** `GetJobStats`: the query's answer, or its error wrapped. */
  function GetJobStats(answer: Result<Stats, string>): (r: Result<Stats, string>)
    ensures answer.Success? ==> r == answer
    ensures answer.Failure? ==> r == Failure("failed to get job stats: " + answer.error)
  {
    match answer
    case Success(s) => Success(s)
    case Failure(e) => Failure("failed to get job stats: " + e)
  }

  /** `ListJobs`: the query's answer, or its error wrapped. */
  function ListJobs(answer: Result<seq<JobRecord>, string>): (r: Result<seq<JobRecord>, string>)
    ensures answer.Success? ==> r == answer
    ensures answer.Failure? ==> r == Failure("failed to list jobs: " + answer.error)
  {
    match answer
    case Success(jobs) => Success(jobs)
    case Failure(e) => Failure("failed to list jobs: " + e)
  }

  /** A job enqueued into a valid table, claimed as the only eligible job and then
      completed, ends completed with its start and completion times, no error message,
      and the type, payload and priority it was enqueued with. */
  lemma EnqueueClaimComplete(t: Table, jobType: JobType, payload: JobPayload, priority: int,
                             marshal: JobPayload -> Result<string, string>, t0: Time, t1: Time, t2: Time)
    requires Valid(t) && marshal(payload).Success?
    ensures
      var e := EnqueueJob(t, jobType, payload, priority, marshal, None, t0);
      var id := e.result.value.id;
      var c := GetNextJob(e.table, [id], None, None, t1);
      var d := CompleteJob(c.table, id, None, t2);
      c.result == Success(Some(e.result.value.(status := Processing))) &&
      d.result.Success? && id in d.table.rows &&
      d.table.rows[id].status == Completed && d.table.rows[id].startedAt == Some(t1) &&
      d.table.rows[id].completedAt == Some(t2) && d.table.rows[id].errorMessage.None? &&
      d.table.rows[id].jobType == TypeName(jobType) && d.table.rows[id].payload == marshal(payload).value &&
      d.table.rows[id].priority == Some(priority) && d.table.rows[id].retryCount == Some(0)
  {
    var e := EnqueueJob(t, jobType, payload, priority, marshal, None, t0);
    var id := e.result.value.id;
    assert SelectNext(e.table, [id]).Some?;
  }

  /** The same lifecycle ending in a failure without retry: the job ends failed with the
      message, its completion time and its original start time. */
  lemma EnqueueClaimFail(t: Table, jobType: JobType, payload: JobPayload, priority: int,
                         marshal: JobPayload -> Result<string, string>, message: string,
                         retried: Result<Table, string>, t0: Time, t1: Time, t2: Time)
    requires Valid(t) && marshal(payload).Success?
    ensures
      var e := EnqueueJob(t, jobType, payload, priority, marshal, None, t0);
      var id := e.result.value.id;
      var c := GetNextJob(e.table, [id], None, None, t1);
      var f := FailJob(c.table, id, message, false, None, retried, t2);
      f.result.Success? && id in f.table.rows &&
      f.table.rows[id].status == Failed && f.table.rows[id].startedAt == Some(t1) &&
      f.table.rows[id].completedAt == Some(t2) && f.table.rows[id].errorMessage == Some(message)
  {
    var e := EnqueueJob(t, jobType, payload, priority, marshal, None, t0);
    var id := e.result.value.id;
    assert SelectNext(e.table, [id]).Some?;
  }
}
