/** The `job_queue` table (schema in pkg/database/database.go) as an abstract store.
    The SQL of the generated query package is not part of this model; what the table does
    with each query is stated here as the store's contract: the insert fills every column
    it does not name from the schema defaults, a status update keeps `started_at` when it
    is given NULL and writes `completed_at` and `error_message` as given, and the claim
    query picks the best-ranked row among those its (hidden) eligibility filter admits. */
module JobStore {
  import opened Wrappers

  /** An abstract clock reading. */
  type Time = int

  const Pending := "pending"
  const Processing := "processing"
  const Completed := "completed"
  const Failed := "failed"

  /** The four statuses the code writes or the schema defaults to. */
  predicate KnownStatus(s: string) {
    s == Pending || s == Processing || s == Completed || s == Failed
  }

  /** One `job_queue` row; nullable columns are `Option`s (`status`, `job_type` and
      `payload` are NOT NULL). */
  datatype JobRecord = JobRecord(
    id: int,
    jobType: string,
    payload: string,
    status: string,
    priority: Option<int>,
    maxRetries: Option<int>,
    retryCount: Option<int>,
    errorMessage: Option<string>,
    scheduledAt: Option<Time>,
    startedAt: Option<Time>,
    completedAt: Option<Time>,
    createdAt: Option<Time>)

  /** The rows by id, and the next AUTOINCREMENT value. */
  datatype Table = Table(rows: map<int, JobRecord>, nextId: int)

  /** Ids are positive, below the AUTOINCREMENT counter, and match their key. */
  predicate Valid(t: Table) {
    t.nextId >= 1 &&
    forall id :: id in t.rows ==> 1 <= id < t.nextId && t.rows[id].id == id
  }

  /** Every row carries one of the four known statuses. */
  predicate KnownStatuses(t: Table) {
    forall id :: id in t.rows ==> KnownStatus(t.rows[id].status)
  }

  /** A row whose every optional column takes the schema default: status 'pending',
      priority 0, max_retries 3, retry_count 0, scheduled_at and created_at the current
      time, and no error or start/completion time. */
  function DefaultRow(id: int, jobType: string, payload: string, now: Time): (row: JobRecord)
    ensures row.id == id && row.jobType == jobType && row.payload == payload
    ensures row.status == Pending
    ensures row.priority == Some(0) && row.maxRetries == Some(3) && row.retryCount == Some(0)
    ensures row.errorMessage.None? && row.startedAt.None? && row.completedAt.None?
    ensures row.scheduledAt == Some(now) && row.createdAt == Some(now)
  {
    JobRecord(id, jobType, payload, Pending, Some(0), Some(3), Some(0), None,
      Some(now), None, None, Some(now))
  }

  /** `CreateJob`: insert a row naming job_type, payload, priority, max_retries and
      scheduled_at (explicit NULLs stay NULL); the rest take the schema defaults. */
  function Insert(t: Table, jobType: string, payload: string, priority: Option<int>,
                  maxRetries: Option<int>, scheduledAt: Option<Time>, now: Time): (r: (Table, JobRecord))
    ensures r.1.id == t.nextId && r.0.nextId == t.nextId + 1
    ensures r.0.rows == t.rows[r.1.id := r.1]
    ensures r.1.jobType == jobType && r.1.payload == payload && r.1.priority == priority
    ensures r.1.maxRetries == maxRetries && r.1.scheduledAt == scheduledAt
    ensures r.1.status == Pending && r.1.retryCount == Some(0)
    ensures r.1.errorMessage.None? && r.1.startedAt.None? && r.1.completedAt.None?
    ensures r.1.createdAt == Some(now)
    ensures Valid(t) ==> Valid(r.0) && r.1.id !in t.rows && r.1.id >= 1
    ensures KnownStatuses(t) ==> KnownStatuses(r.0)
  {
    var row := DefaultRow(t.nextId, jobType, payload, now)
      .(priority := priority, maxRetries := maxRetries, scheduledAt := scheduledAt);
    (Table(t.rows[t.nextId := row], t.nextId + 1), row)
  }

  /** The columns a status update leaves alone. */
  predicate SameJob(a: JobRecord, b: JobRecord) {
    a.id == b.id && a.jobType == b.jobType && a.payload == b.payload &&
    a.priority == b.priority && a.maxRetries == b.maxRetries && a.retryCount == b.retryCount &&
    a.scheduledAt == b.scheduledAt && a.createdAt == b.createdAt
  }

  /** `UpdateJobStatus`: set the status, `completed_at` and `error_message` of one row,
      and `started_at` only when a value is given. `None` when no row has that id. */
  function UpdateStatus(t: Table, id: int, status: string, startedAt: Option<Time>,
                        completedAt: Option<Time>, errorMessage: Option<string>): (r: Option<(Table, JobRecord)>)
    ensures r.Some? <==> id in t.rows
    ensures r.Some? ==> r.value.0.rows == t.rows[id := r.value.1] && r.value.0.nextId == t.nextId
    ensures r.Some? ==> SameJob(r.value.1, t.rows[id])
    ensures r.Some? ==> r.value.1.status == status && r.value.1.completedAt == completedAt
    ensures r.Some? ==> r.value.1.errorMessage == errorMessage
    ensures r.Some? ==> r.value.1.startedAt == (if startedAt.Some? then startedAt else t.rows[id].startedAt)
    ensures r.Some? && Valid(t) ==> Valid(r.value.0)
    ensures r.Some? && KnownStatuses(t) && KnownStatus(status) ==> KnownStatuses(r.value.0)
  {
    if id !in t.rows then None
    else
      var old_ := t.rows[id];
      var row := old_.(status := status,
        startedAt := if startedAt.Some? then startedAt else old_.startedAt,
        completedAt := completedAt, errorMessage := errorMessage);
      Some((Table(t.rows[id := row], t.nextId), row))
  }

  /** Claim order, first key: priority descending, NULL last (SQLite sorts NULL lowest). */
  predicate PriorityAbove(p: Option<int>, q: Option<int>) {
    p.Some? && (q.None? || p.value > q.value)
  }

  /** Claim order, second key: scheduled_at ascending, NULL first. */
  predicate ScheduledEarlier(s: Option<Time>, u: Option<Time>) {
    u.Some? && (s.None? || s.value < u.value)
  }

  /** `a` is claimed before `b`: higher priority, or equal priority and scheduled earlier. */
  predicate Precedes(a: JobRecord, b: JobRecord) {
    PriorityAbove(a.priority, b.priority) ||
    (a.priority == b.priority && ScheduledEarlier(a.scheduledAt, b.scheduledAt))
  }

  /** The claim order is a strict weak order: irreflexive, and both it and its
      incomparability are transitive. */
  lemma PrecedesIsStrictWeakOrder(a: JobRecord, b: JobRecord, c: JobRecord)
    ensures !Precedes(a, a)
    ensures Precedes(a, b) ==> !Precedes(b, a)
    ensures Precedes(a, b) && Precedes(b, c) ==> Precedes(a, c)
    ensures !Precedes(a, b) && !Precedes(b, c) ==> !Precedes(a, c)
  {
  }

  /** `GetNextPendingJob`: among the ids in `eligible` that are rows of the table (the
      hidden filter's answer, in scan order), the first one no other candidate precedes. */
  function SelectNext(t: Table, eligible: seq<int>): (r: Option<int>)
    ensures r.None? <==> (forall i :: 0 <= i < |eligible| ==> eligible[i] !in t.rows)
    ensures r.Some? ==> r.value in eligible && r.value in t.rows
    ensures r.Some? ==> forall i :: 0 <= i < |eligible| && eligible[i] in t.rows ==>
      !Precedes(t.rows[eligible[i]], t.rows[r.value])
    decreases |eligible|
  {
    if |eligible| == 0 then None
    else
      var rest := SelectNext(t, eligible[1..]);
      var id := eligible[0];
      if id !in t.rows then
        assert forall i :: 1 <= i < |eligible| ==> eligible[i] == eligible[1..][i - 1];
        rest
      else if rest.Some? && Precedes(t.rows[rest.value], t.rows[id]) then
        assert forall i :: 1 <= i < |eligible| ==> eligible[i] == eligible[1..][i - 1];
        PrecedesIsStrictWeakOrder(t.rows[rest.value], t.rows[id], t.rows[id]);
        rest
      else
        assert forall i :: 1 <= i < |eligible| ==> eligible[i] == eligible[1..][i - 1];
        assert forall i :: 1 <= i < |eligible| && eligible[i] in t.rows ==>
          !Precedes(t.rows[eligible[i]], t.rows[id]) by {
          forall i | 1 <= i < |eligible| && eligible[i] in t.rows
            ensures !Precedes(t.rows[eligible[i]], t.rows[id])
          {
            PrecedesIsStrictWeakOrder(t.rows[eligible[i]], t.rows[rest.value], t.rows[id]);
          }
        }
        Some(id)
  }
}
