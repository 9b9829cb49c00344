/** The background worker of cmd/worker/main.go: the processor registry, the per-job
    dispatch decision of `processNextJob`, and the worker loop as a state machine over
    the in-flight counter (`processingWg`). Goroutines become in-flight entries that
    finish in any order; processor bodies are opaque and enter as their error, if any. */
module Worker {
  import opened Wrappers
  import opened JobStore
  import opened JobQueue

  /** The job types `Start` registers a processor for. */
  const Registry: set<string> := {"user_created", "data_analysis", "email_notification"}

  /** Exactly the job types other than `data_export` have a processor. */
  lemma RegistryCoversAllButDataExport(t: JobType)
    ensures TypeName(t) in Registry <==> t != DataExport
  {
  }

  /** The retry decision after a processor error: a NULL retry count or maximum reads as 0,
      and the job is retried while the count is below the maximum. */
  function ShouldRetry(retryCount: Option<int>, maxRetries: Option<int>): (b: bool)
    ensures retryCount.Some? && maxRetries.Some? ==> (b <==> retryCount.value < maxRetries.value)
    ensures retryCount.None? ==> (b <==> maxRetries.Some? && maxRetries.value > 0)
    ensures maxRetries.None? ==> (b <==> retryCount.Some? && retryCount.value < 0)
  {
    retryCount.GetOr(0) < maxRetries.GetOr(0)
  }

  /** A NULL maximum never retries a job whose count is not negative. */
  lemma NullMaxNeverRetries(retryCount: Option<int>)
    requires retryCount.None? || retryCount.value >= 0
    ensures !ShouldRetry(retryCount, None)
  {
  }

  /** The single call a dispatched job ends in. */
  datatype Outcome =
    | Complete(id: int)
    | Fail(id: int, message: string, retry: bool)

  /** Whether the processor ran, and the outcome call. */
  datatype Decision = Decision(ranProcessor: bool, outcome: Outcome)

  /** The goroutine body of `processNextJob` for one claimed job: decode the payload, look
      up the processor, run it, and choose the outcome. `processorError` is what the
      registered processor returns for this job and payload; it is consulted only when a
      processor runs. */
  function ProcessJob(job: JobRecord, parsed: Result<JobPayload, string>,
                      processorError: Option<string>): (d: Decision)
    ensures d.outcome.id == job.id
    ensures parsed.Failure? ==>
      d == Decision(false, Fail(job.id, "Failed to parse payload: " + parsed.error, false))
    ensures parsed.Success? && job.jobType !in Registry ==>
      d == Decision(false, Fail(job.id, "No processor for job type: " + job.jobType, false))
    ensures d.ranProcessor <==> parsed.Success? && job.jobType in Registry
    ensures d.ranProcessor && processorError.None? ==> d.outcome == Complete(job.id)
    ensures d.ranProcessor && processorError.Some? ==>
      d.outcome == Fail(job.id, processorError.value, ShouldRetry(job.retryCount, job.maxRetries))
  {
    match parsed
    case Failure(e) => Decision(false, Fail(job.id, "Failed to parse payload: " + e, false))
    case Success(_) =>
      if job.jobType !in Registry then
        Decision(false, Fail(job.id, "No processor for job type: " + job.jobType, false))
      else match processorError
        case None => Decision(true, Complete(job.id))
        case Some(e) => Decision(true, Fail(job.id, e, ShouldRetry(job.retryCount, job.maxRetries)))
  }

  /** A job completes exactly when its payload decodes, a processor is registered and the
      processor succeeds. */
  lemma CompletesIffProcessorSucceeds(job: JobRecord, parsed: Result<JobPayload, string>,
                                      processorError: Option<string>)
    ensures ProcessJob(job, parsed, processorError).outcome.Complete? <==>
      parsed.Success? && job.jobType in Registry && processorError.None?
  {
  }

  /** A retry is only ever requested after a processor ran and failed with the count below
      the maximum. */
  lemma RetryOnlyAfterProcessorError(job: JobRecord, parsed: Result<JobPayload, string>,
                                     processorError: Option<string>)
    ensures var o := ProcessJob(job, parsed, processorError).outcome;
      o.Fail? && o.retry ==>
      ProcessJob(job, parsed, processorError).ranProcessor && processorError.Some? &&
      job.retryCount.GetOr(0) < job.maxRetries.GetOr(0)
  {
  }

  /** A `data_export` job never reaches a processor and always fails without retry. */
  lemma DataExportFailsPermanently(job: JobRecord, parsed: Result<JobPayload, string>,
                                   processorError: Option<string>)
    requires job.jobType == TypeName(DataExport)
    ensures var d := ProcessJob(job, parsed, processorError);
      !d.ranProcessor && d.outcome.Fail? && !d.outcome.retry
  {
  }

  /** The query-package call an outcome becomes through `CompleteJob` or `FailJob`. */
  function OutcomeQuery(o: Outcome, now: Time): Query {
    match o
    case Complete(id) => UpdateJobStatus(id, Completed, None, Some(now), None)
    case Fail(id, message, retry) =>
      if retry then IncrementJobRetry(id, Some(message))
      else UpdateJobStatus(id, Failed, None, Some(now), Some(message))
  }

  /** Deliver an outcome to the job queue; the worker ignores the error it returns. */
  function ApplyOutcome(t: Table, o: Outcome, fault: Option<string>, retried: Result<Table, string>,
                        now: Time): (r: Step<()>)
    ensures r.issued == [OutcomeQuery(o, now)]
    ensures o.Complete? ==> r == CompleteJob(t, o.id, fault, now)
    ensures o.Fail? ==> r == FailJob(t, o.id, o.message, o.retry, fault, retried, now)
  {
    match o
    case Complete(id) => CompleteJob(t, id, fault, now)
    case Fail(id, message, retry) => FailJob(t, id, message, retry, fault, retried, now)
  }

  /** Every dispatched job leads to exactly one query, and it concerns that job: a status
      update for completion and permanent failure, the retry increment otherwise. */
  lemma OneCallPerJob(t: Table, job: JobRecord, parsed: Result<JobPayload, string>,
                      processorError: Option<string>, fault: Option<string>,
                      retried: Result<Table, string>, now: Time)
    ensures var o := ProcessJob(job, parsed, processorError).outcome;
      var r := ApplyOutcome(t, o, fault, retried, now);
      |r.issued| == 1 && r.issued[0].id == job.id &&
      (r.issued[0].IncrementJobRetry? <==> o.Fail? && o.retry)
  {
  }

  // The worker loop

  /** `Running`: the `for`/`select` loop; `Draining`: inside `processingWg.Wait()` after
      taking the stop case; `Stopped`: `Start` has returned. */
  datatype Phase = Running | Draining | Stopped

  /** The worker: its phase, whether `stopCh` is closed, the `processingWg` counter, the
      jobs whose goroutines are still running, and every job dispatched and every outcome
      delivered so far, in order. */
  datatype WorkerState = WorkerState(
    phase: Phase,
    stopClosed: bool,
    counter: int,
    inFlight: seq<JobRecord>,
    dispatched: seq<int>,
    outcomes: seq<Outcome>)

  /** `NewWorker` followed by the start of `Start`. */
  const Initial := WorkerState(Running, false, 0, [], [], [])

  /** One thing that can happen to a worker. */
  datatype Event =
    | Tick(claim: Result<Option<JobRecord>, string>)   // the ticker case, with `GetNextJob`'s answer
    | Close                                             // `Stop` closes the stop channel
    | SeeStop                                           // the select takes the stop case
    | Finish(index: nat, parsed: Result<JobPayload, string>, processorError: Option<string>)
    | Return                                            // `processingWg.Wait()` returns

  /** The ids of a sequence of jobs. */
  function Ids(jobs: seq<JobRecord>): (ids: seq<int>)
    ensures |ids| == |jobs| && forall i :: 0 <= i < |jobs| ==> ids[i] == jobs[i].id
  {
    seq(|jobs|, i requires 0 <= i < |jobs| => jobs[i].id)
  }

  /** The job ids of a sequence of outcomes. */
  function OutcomeIds(os: seq<Outcome>): (ids: seq<int>)
    ensures |ids| == |os| && forall i :: 0 <= i < |os| ==> ids[i] == os[i].id
  {
    seq(|os|, i requires 0 <= i < |os| => os[i].id)
  }

  /** A sequence without its element at `i`. */
  function RemoveAt<T>(s: seq<T>, i: nat): (r: seq<T>)
    requires i < |s|
    ensures |r| == |s| - 1
    ensures multiset(r) + multiset{s[i]} == multiset(s)
  {
    assert s == s[..i] + [s[i]] + s[i + 1..];
    s[..i] + s[i + 1..]
  }

  /** The effect of an event, or `None` when it cannot happen in this state. */
  function Next(s: WorkerState, e: Event): (r: Option<WorkerState>)
  {
    match e
    case Tick(claim) =>
      if s.phase != Running then None
      else if claim.Failure? || claim.value.None? then Some(s)
      else
        var job := claim.value.value;
        Some(s.(counter := s.counter + 1, inFlight := s.inFlight + [job], dispatched := s.dispatched + [job.id]))
    case Close =>
      if s.stopClosed then None else Some(s.(stopClosed := true))
    case SeeStop =>
      if s.phase == Running && s.stopClosed then Some(s.(phase := Draining)) else None
    case Finish(i, parsed, processorError) =>
      if i >= |s.inFlight| then None
      else
        var d := ProcessJob(s.inFlight[i], parsed, processorError);
        Some(s.(counter := s.counter - 1, inFlight := RemoveAt(s.inFlight, i), outcomes := s.outcomes + [d.outcome]))
    case Return =>
      if s.phase == Draining && s.counter == 0 then Some(s.(phase := Stopped)) else None
  }

  /** The counter equals the number of running goroutines; every dispatched job has either
      delivered exactly one outcome or is still in flight; and a stopped worker has none in
      flight, having seen the stop channel closed. */
  predicate Inv(s: WorkerState) {
    s.counter == |s.inFlight| &&
    multiset(s.dispatched) == multiset(OutcomeIds(s.outcomes)) + multiset(Ids(s.inFlight)) &&
    (s.phase != Running ==> s.stopClosed) &&
    (s.phase == Stopped ==> |s.inFlight| == 0)
  }

  lemma InitialInv()
    ensures Inv(Initial)
  {
  }

  lemma IdsAppend(a: seq<JobRecord>, b: seq<JobRecord>)
    ensures Ids(a + b) == Ids(a) + Ids(b)
  {
  }

  lemma OutcomeIdsAppend(a: seq<Outcome>, b: seq<Outcome>)
    ensures OutcomeIds(a + b) == OutcomeIds(a) + OutcomeIds(b)
  {
  }

  /** Removing a job from the in-flight list removes its id from the id multiset. */
  lemma IdsRemoveAt(jobs: seq<JobRecord>, i: nat)
    requires i < |jobs|
    ensures multiset(Ids(RemoveAt(jobs, i))) + multiset{jobs[i].id} == multiset(Ids(jobs))
  {
    var r := RemoveAt(jobs, i);
    assert r == jobs[..i] + jobs[i + 1..];
    assert Ids(r) == RemoveAt(Ids(jobs), i);
  }

  /** A claimed job joins the in-flight list and the dispatched ids together. */
  lemma ClaimKeepsInv(s: WorkerState, job: JobRecord)
    requires Inv(s) && s.phase == Running
    ensures Inv(s.(counter := s.counter + 1, inFlight := s.inFlight + [job], dispatched := s.dispatched + [job.id]))
  {
    IdsAppend(s.inFlight, [job]);
  }

  /** A finished job leaves the in-flight list and its outcome joins the delivered ones. */
  lemma FinishKeepsInv(s: WorkerState, i: nat, o: Outcome)
    requires Inv(s) && i < |s.inFlight| && o.id == s.inFlight[i].id
    ensures Inv(s.(counter := s.counter - 1, inFlight := RemoveAt(s.inFlight, i), outcomes := s.outcomes + [o]))
  {
    IdsRemoveAt(s.inFlight, i);
    OutcomeIdsAppend(s.outcomes, [o]);
  }

  /** Every event keeps the invariant. */
  lemma NextKeepsInv(s: WorkerState, e: Event)
    requires Inv(s) && Next(s, e).Some?
    ensures Inv(Next(s, e).value)
  {
    match e
    case Tick(claim) =>
      if claim.Success? && claim.value.Some? {
        ClaimKeepsInv(s, claim.value.value);
      }
    case Finish(i, parsed, processorError) =>
      FinishKeepsInv(s, i, ProcessJob(s.inFlight[i], parsed, processorError).outcome);
    case _ =>
  }

  /** A tick whose claim fails or finds no job changes nothing. */
  lemma IdleTickChangesNothing(s: WorkerState, claim: Result<Option<JobRecord>, string>)
    requires s.phase == Running && (claim.Failure? || claim.value.None?)
    ensures Next(s, Tick(claim)) == Some(s)
  {
  }

  /** A tick that claims a job raises the counter by one, before its goroutine finishes. */
  lemma ClaimRaisesCounter(s: WorkerState, job: JobRecord)
    requires s.phase == Running
    ensures Next(s, Tick(Success(Some(job)))).Some?
    ensures Next(s, Tick(Success(Some(job)))).value.counter == s.counter + 1
    ensures Next(s, Tick(Success(Some(job)))).value.inFlight == s.inFlight + [job]
  {
  }

  /** Running a sequence of events, `None` as soon as one cannot happen. */
  function Run(s: WorkerState, es: seq<Event>): Option<WorkerState>
    decreases |es|
  {
    if |es| == 0 then Some(s)
    else match Next(s, es[0])
      case None => None
      case Some(s') => Run(s', es[1..])
  }

  /** The invariant holds after every run from the initial state; in particular a stopped
      worker has delivered exactly one outcome per dispatched job and has counter zero. */
  lemma {:induction false} RunKeepsInv(s: WorkerState, es: seq<Event>)
    requires Inv(s) && Run(s, es).Some?
    ensures Inv(Run(s, es).value)
    ensures Run(s, es).value.phase == Stopped ==>
      Run(s, es).value.counter == 0 &&
      multiset(Run(s, es).value.dispatched) == multiset(OutcomeIds(Run(s, es).value.outcomes))
    decreases |es|
  {
    if |es| > 0 {
      NextKeepsInv(s, es[0]);
      RunKeepsInv(Next(s, es[0]).value, es[1..]);
    }
  }

  /** `Start` can return only with no job in flight. */
  lemma ReturnNeedsDrained(s: WorkerState)
    requires Inv(s) && Next(s, Return).Some?
    ensures |s.inFlight| == 0 && Next(s, Return).value.phase == Stopped
  {
  }

  /** The events that finish the in-flight jobs front to back, with the given reports, and
      then return from `Start`. */
  function DrainEvents(reports: seq<(Result<JobPayload, string>, Option<string>)>): seq<Event>
    decreases |reports|
  {
    if |reports| == 0 then [Return]
    else [Finish(0, reports[0].0, reports[0].1)] + DrainEvents(reports[1..])
  }

  /** A draining worker always gets to stop: once each in-flight job finishes, whatever its
      report, `Start` returns, and every job it had dispatched has its outcome. */
  lemma {:induction false} DrainingStops(s: WorkerState, reports: seq<(Result<JobPayload, string>, Option<string>)>)
    requires Inv(s) && s.phase == Draining && |reports| == |s.inFlight|
    ensures Run(s, DrainEvents(reports)).Some?
    ensures Run(s, DrainEvents(reports)).value.phase == Stopped
    ensures Run(s, DrainEvents(reports)).value.counter == 0
    ensures |Run(s, DrainEvents(reports)).value.outcomes| == |s.outcomes| + |s.inFlight|
    ensures multiset(Run(s, DrainEvents(reports)).value.dispatched) ==
      multiset(OutcomeIds(Run(s, DrainEvents(reports)).value.outcomes))
    decreases |reports|
  {
    var es := DrainEvents(reports);
    if |reports| == 0 {
      assert es == [Return];
      assert Run(s, es) == Run(s.(phase := Stopped), []);
    } else {
      var e := Finish(0, reports[0].0, reports[0].1);
      assert es == [e] + DrainEvents(reports[1..]);
      NextKeepsInv(s, e);
      var s' := Next(s, e).value;
      assert es[1..] == DrainEvents(reports[1..]);
      DrainingStops(s', reports[1..]);
    }
    RunKeepsInv(s, es);
  }

  /** The database path the worker binary uses: the first argument when present and not
      empty, else "workers.db". `args` excludes the program name. */
  function WorkerDbPath(args: seq<string>): (path: string)
    ensures |args| > 0 && args[0] != "" ==> path == args[0]
    ensures |args| == 0 || args[0] == "" ==> path == "workers.db"
  {
    if |args| > 0 && args[0] != "" then args[0] else "workers.db"
  }
}
