/** The job-queue command-line tool of cmd/worker-manager/main.go: argument dispatch with
    its defaults, the `enqueue` command's job-type and priority parsing and payload
    construction, the statistics total, the list display's NULL handling, and `clear`,
    which never deletes. Console output, stdin and the process exit are results here. */
module Manager {
  import opened Wrappers
  import opened Json
  import opened Numbers
  import opened JobStore
  import opened JobQueue
  import opened Worker

  /** What `main` goes on to do once it has read its arguments. */
  datatype Action =
    | PrintUsage                                       // too few arguments: usage, exit 1
    | ShowStats
    | ListJobsWith(status: string, limit: int)
    | EnqueueUsage                                     // `enqueue` without type and message: exit 1
    | EnqueueTest(jobType: string, message: string, rest: seq<string>)
    | ClearJobs(status: string)
    | UnknownCommand(command: string)                  // usage, exit 1

  /** The database path opened, if `main` gets that far, and the action. */
  datatype Plan = Plan(dbPath: Option<string>, action: Action)

  /** The actions that end the process with status 1 without touching the queue. */
  predicate ExitsWithError(a: Action) {
    a.PrintUsage? || a.EnqueueUsage? || a.UnknownCommand?
  }

  const Commands: set<string> := {"stats", "list", "enqueue", "clear"}

  /** `main`'s reading of `os.Args` (program name first). */
  function Interpret(args: seq<string>): (p: Plan)
    ensures |args| < 2 ==> p == Plan(None, PrintUsage)
    ensures |args| >= 2 ==> p.dbPath == Some(if |args| > 2 then args[2] else "users.db")
    ensures |args| >= 2 && args[1] == "stats" ==> p.action == ShowStats
    ensures |args| >= 2 && args[1] == "list" ==>
      p.action == ListJobsWith(if |args| > 3 then args[3] else Pending, 20)
    ensures 2 <= |args| < 5 && args[1] == "enqueue" ==> p.action == EnqueueUsage
    ensures |args| >= 5 && args[1] == "enqueue" ==> p.action == EnqueueTest(args[3], args[4], args[5..])
    ensures |args| >= 2 && args[1] == "clear" ==>
      p.action == ClearJobs(if |args| > 3 then args[3] else Completed)
    ensures |args| >= 2 && args[1] !in Commands ==> p.action == UnknownCommand(args[1])
  {
    if |args| < 2 then Plan(None, PrintUsage)
    else
      var command := args[1];
      var dbPath := if |args| > 2 then args[2] else "users.db";
      var action :=
        if command == "stats" then ShowStats
        else if command == "list" then ListJobsWith(if |args| > 3 then args[3] else Pending, 20)
        else if command == "enqueue" then
          (if |args| < 5 then EnqueueUsage else EnqueueTest(args[3], args[4], args[5..]))
        else if command == "clear" then ClearJobs(if |args| > 3 then args[3] else Completed)
        else UnknownCommand(command);
      Plan(Some(dbPath), action)
  }

  /** The tool exits with an error before any queue operation exactly when there is no
      command, the command is unknown, or `enqueue` lacks its type or message. */
  lemma ErrorExitsExactly(args: seq<string>)
    ensures ExitsWithError(Interpret(args).action) <==>
      |args| < 2 || args[1] !in Commands || (args[1] == "enqueue" && |args| < 5)
  {
  }

  /** `enqueueTestJob`'s job-type switch. */
  function ParseJobType(s: string): (t: Option<JobType>)
    ensures t.Some? ==> TypeName(t.value) == s
  {
    if s == "user_created" then Some(UserCreated)
    else if s == "data_analysis" then Some(DataAnalysis)
    else if s == "email_notification" then Some(EmailNotification)
    else if s == "data_export" then Some(DataExport)
    else None
  }

  /** Exactly the four stored type names parse, each to its own type. */
  lemma ParseJobTypeExactly(s: string, t: JobType)
    ensures ParseJobType(TypeName(t)) == Some(t)
    ensures ParseJobType(s).Some? <==>
      s in {"user_created", "data_analysis", "email_notification", "data_export"}
  {
  }

  /** The priority: the first extra argument when `strconv.Atoi` accepts it, else 0. */
  function ParsePriority(rest: seq<string>): (p: int)
    ensures |rest| > 0 && ParseInt64(rest[0]).Some? ==> p == ParseInt64(rest[0]).value
    ensures |rest| == 0 || ParseInt64(rest[0]).None? ==> p == 0
    ensures InInt64(p)
  {
    if |rest| > 0 && ParseInt64(rest[0]).Some? then ParseInt64(rest[0]).value else 0
  }

  /** A priority written in decimal as the first extra argument is the job's priority. */
  lemma PriorityRoundTrip(n: int, more: seq<string>)
    requires InInt64(n)
    ensures ParsePriority([FormatInt(n)] + more) == n
  {
    ParseFormat(n);
    assert ([FormatInt(n)] + more)[0] == FormatInt(n);
  }

  /** The test payload: always the message; a `user_created` job adds user id 999, its
      user data and two additional properties; an `email_notification` job adds two
      recipients. */
  function BuildPayload(t: JobType, message: string): (p: JobPayload)
    ensures p.message == message && p.validationMode == ""
    ensures t == UserCreated ==>
      p.userId == Some(999) &&
      p.userData == map["id" := JNumber(999), "email" := JString("test@example.com"), "age" := JNumber(25)] &&
      p.additionalProps == map["test_data" := JBool(true), "source" := JString("worker-manager")] &&
      p.recipients == []
    ensures t == EmailNotification ==>
      p == EmptyPayload.(message := message, recipients := ["admin@example.com", "user@example.com"])
    ensures t == DataAnalysis || t == DataExport ==> p == EmptyPayload.(message := message)
  {
    var base := EmptyPayload.(message := message);
    match t
    case UserCreated =>
      base.(userId := Some(999),
        userData := map["id" := JNumber(999), "email" := JString("test@example.com"), "age" := JNumber(25)],
        additionalProps := map["test_data" := JBool(true), "source" := JString("worker-manager")])
    case EmailNotification => base.(recipients := ["admin@example.com", "user@example.com"])
    case _ => base
  }

  /** `enqueueTestJob`: an unknown type exits without enqueueing; otherwise the built
      payload is enqueued with the parsed priority, and an enqueue error is fatal. */
  function EnqueueTestJob(t: Table, jobTypeText: string, message: string, rest: seq<string>,
                          marshal: JobPayload -> Result<string, string>, fault: Option<string>,
                          now: Time): (r: Step<JobRecord>)
    ensures ParseJobType(jobTypeText).None? ==>
      r == Step(t, [], Failure("Invalid job type: " + jobTypeText))
    ensures ParseJobType(jobTypeText).Some? ==>
      var e := EnqueueJob(t, ParseJobType(jobTypeText).value, BuildPayload(ParseJobType(jobTypeText).value, message),
                          ParsePriority(rest), marshal, fault, now);
      r.table == e.table && r.issued == e.issued &&
      (e.result.Success? ==> r.result == e.result) &&
      (e.result.Failure? ==> r.result == Failure("Failed to enqueue job: " + e.result.error))
    ensures r.result.Success? ==>
      r.result.value.jobType == jobTypeText && r.result.value.priority == Some(ParsePriority(rest))
  {
    match ParseJobType(jobTypeText)
    case None => Step(t, [], Failure("Invalid job type: " + jobTypeText))
    case Some(jt) =>
      var e := EnqueueJob(t, jt, BuildPayload(jt, message), ParsePriority(rest), marshal, fault, now);
      match e.result
      case Success(_) => e
      case Failure(err) => Step(e.table, e.issued, Failure("Failed to enqueue job: " + err))
  }

  /** The "Total" line of `showJobStats`. */
  function Total(s: Stats): int {
    s.pending + s.processing + s.completed + s.failed
  }

  /** The ids of the rows with status `s`. */
  function WithStatus(t: Table, s: string): (ids: set<int>)
    ensures |ids| == CountStatus(t, s)
    ensures forall id :: id in ids <==> id in t.rows && t.rows[id].status == s
  {
    set id | id in t.rows && t.rows[id].status == s
  }

  /** Four pairwise disjoint sets have the union's size between them. */
  lemma DisjointUnionSize(p: set<int>, r: set<int>, c: set<int>, f: set<int>)
    requires p !! r && p !! c && p !! f && r !! c && r !! f && c !! f
    ensures |p + r + c + f| == |p| + |r| + |c| + |f|
  {
    assert |p + r| == |p| + |r|;
    assert (p + r) !! c;
    assert |p + r + c| == |p + r| + |c|;
    assert (p + r + c) !! f;
  }

  /** When every row has a known status, the total is the number of jobs. */
  lemma TotalCountsEveryJob(t: Table)
    requires KnownStatuses(t)
    ensures Total(StatsOf(t)) == |t.rows|
  {
    var p, r, c, f := WithStatus(t, Pending), WithStatus(t, Processing), WithStatus(t, Completed), WithStatus(t, Failed);
    assert Pending != Processing && Pending != Completed && Pending != Failed;
    assert Processing != Completed && Processing != Failed && Completed != Failed;
    DisjointUnionSize(p, r, c, f);
    forall id | id in t.rows
      ensures id in p + r + c + f
    {
      assert KnownStatus(t.rows[id].status);
    }
    assert t.rows.Keys == p + r + c + f;
  }

  /** One line of `listJobs`: NULL priority and retry columns show as 0, and the error
      line appears only for a non-empty message. */
  datatype JobLine = JobLine(id: int, jobType: string, priority: int, retryCount: int,
                             maxRetries: int, error: Option<string>)

  function DisplayLine(job: JobRecord): (l: JobLine)
    ensures l.id == job.id && l.jobType == job.jobType
    ensures job.priority.None? ==> l.priority == 0
    ensures job.priority.Some? ==> l.priority == job.priority.value
    ensures job.retryCount.None? ==> l.retryCount == 0
    ensures job.retryCount.Some? ==> l.retryCount == job.retryCount.value
    ensures job.maxRetries.None? ==> l.maxRetries == 0
    ensures job.maxRetries.Some? ==> l.maxRetries == job.maxRetries.value
    ensures l.error.Some? <==> job.errorMessage.Some? && job.errorMessage.value != ""
    ensures l.error.Some? ==> l.error == job.errorMessage
  {
    JobLine(job.id, job.jobType, job.priority.GetOr(0), job.retryCount.GetOr(0), job.maxRetries.GetOr(0),
      if job.errorMessage.Some? && job.errorMessage.value != "" then job.errorMessage else None)
  }

  /** The list shows the worker's retry decision: both read NULL counters as 0, so a
      listed job shows fewer retries than its maximum exactly when a processor error
      would retry it. */
  lemma DisplayShowsRetryDecision(job: JobRecord)
    ensures var l := DisplayLine(job);
      l.retryCount < l.maxRetries <==> ShouldRetry(job.retryCount, job.maxRetries)
  {
  }

  /** What the worker does with a test job once it is enqueued and its payload decodes
      back: every type but `data_export` reaches its processor and completes exactly when
      the processor succeeds; a `data_export` test job fails at once, without retry. */
  lemma TestJobProcessing(t: Table, jobTypeText: string, message: string, rest: seq<string>,
                          marshal: JobPayload -> Result<string, string>, fault: Option<string>,
                          now: Time, processorError: Option<string>)
    requires EnqueueTestJob(t, jobTypeText, message, rest, marshal, fault, now).result.Success?
    ensures var job := EnqueueTestJob(t, jobTypeText, message, rest, marshal, fault, now).result.value;
      var payload := BuildPayload(ParseJobType(jobTypeText).value, message);
      var d := ProcessJob(job, Success(payload), processorError);
      (jobTypeText != "data_export" ==> d.ranProcessor && (d.outcome.Complete? <==> processorError.None?)) &&
      (jobTypeText == "data_export" ==>
        d == Decision(false, Fail(job.id, "No processor for job type: data_export", false)))
  {
    var jt := ParseJobType(jobTypeText).value;
    RegistryCoversAllButDataExport(jt);
  }

  /** How `clearJobs` ends. */
  datatype ClearOutcome =
    | ClearFatal(message: string)
    | NothingFound
    | Cancelled
    | NotImplemented(found: nat)

  /** `clearJobs`: list up to 1000 jobs with the status (`listed` is that query's
      answer), ask for confirmation, and in every case leave the table as it was. */
  function ClearJobsRun(t: Table, listed: Result<seq<JobRecord>, string>, response: string): (r: (Table, ClearOutcome))
    ensures r.0 == t
    ensures listed.Failure? ==>
      r.1 == ClearFatal("Failed to list jobs: " + ("failed to list jobs: " + listed.error))
    ensures listed.Success? && |listed.value| == 0 ==> r.1 == NothingFound
    ensures listed.Success? && |listed.value| > 0 ==>
      r.1 == (if response == "y" || response == "Y" then NotImplemented(|listed.value|) else Cancelled)
  {
    match ListJobs(listed)
    case Failure(e) => (t, ClearFatal("Failed to list jobs: " + e))
    case Success(jobs) =>
      if |jobs| == 0 then (t, NothingFound)
      else if response != "y" && response != "Y" then (t, Cancelled)
      else (t, NotImplemented(|jobs|))
  }
}
