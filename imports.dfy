/** ImportsService: the import-job lifecycle PENDING -> PROCESSING -> COMPLETED, with FAILED reachable until completion. */
module Imports {
  import opened Wrappers
  import opened PlainValues

  datatype ImportSource = YouTube | Rss | Csv | Api

  datatype ImportJobStatus = Pending | Processing | Completed | Failed

  datatype ImportJob = ImportJob(
    id: string,
    source: ImportSource,
    payload: Record,
    status: ImportJobStatus,
    error: Option<string>,
    createdAt: Time,
    processedAt: Option<Time>)

  datatype CreateImportJobDto = CreateImportJobDto(source: ImportSource, payload: Record)

  const MustBePending := "Import job must be pending to start processing."
  const MustBeProcessing := "Import job must be processing to be completed."
  const CompletedCannotFail := "Completed import job cannot be marked as failed."

  /** The lifecycle as a transition relation: the only moves any of the three operations may make. */
  predicate Step(from: ImportJobStatus, to: ImportJobStatus) {
    (from == Pending && to == Processing) ||
    (from == Processing && to == Completed) ||
    (from != Completed && to == Failed)
  }

  /** The fields no transition may touch. */
  predicate SameJob(a: ImportJob, b: ImportJob) {
    a.id == b.id && a.source == b.source && a.payload == b.payload && a.createdAt == b.createdAt
  }

  /** createImportJob; the random UUID and the clock are parameters. */
  function CreateImportJob(dto: CreateImportJobDto, freshId: string, now: Time): (job: ImportJob)
    ensures job.status == Pending && job.error == None && job.processedAt == None
    ensures job.source == dto.source && job.payload == dto.payload
    ensures job.id == freshId && job.createdAt == now
  {
    ImportJob(freshId, dto.source, dto.payload, Pending, None, now, None)
  }

  /** markAsProcessing: a copy in PROCESSING, or Error when the job is not PENDING. */
  function MarkAsProcessing(job: ImportJob): (r: Result<ImportJob>)
    ensures r.Ok? <==> job.status == Pending
    ensures r.Ok? ==> Step(job.status, r.value.status) && r.value.status == Processing
    ensures r.Ok? ==> SameJob(job, r.value) && r.value.error == job.error && r.value.processedAt == job.processedAt
    ensures r.Err? ==> r.error == Failure(MustBePending)
  {
    if job.status != Pending then Err(Failure(MustBePending))
    else Ok(job.(status := Processing))
  }

  /** markAsCompleted: a copy in COMPLETED stamped with processedAt, or Error when the job is not PROCESSING. */
  function MarkAsCompleted(job: ImportJob, now: Time): (r: Result<ImportJob>)
    ensures r.Ok? <==> job.status == Processing
    ensures r.Ok? ==> Step(job.status, r.value.status) && r.value.status == Completed
    ensures r.Ok? ==> SameJob(job, r.value) && r.value.error == job.error && r.value.processedAt == Some(now)
    ensures r.Err? ==> r.error == Failure(MustBeProcessing)
  {
    if job.status != Processing then Err(Failure(MustBeProcessing))
    else Ok(job.(status := Completed, processedAt := Some(now)))
  }

  /** markAsFailed: a copy in FAILED with the reason and processedAt, from any state but COMPLETED. */
  function MarkAsFailed(job: ImportJob, error: string, now: Time): (r: Result<ImportJob>)
    ensures r.Ok? <==> job.status != Completed
    ensures r.Ok? ==> Step(job.status, r.value.status) && r.value.status == Failed
    ensures r.Ok? ==> SameJob(job, r.value) && r.value.error == Some(error) && r.value.processedAt == Some(now)
    ensures r.Err? ==> r.error == Failure(CompletedCannotFail)
  {
    if job.status == Completed then Err(Failure(CompletedCannotFail))
    else Ok(job.(status := Failed, error := Some(error), processedAt := Some(now)))
  }

  /** One call of the service on a job. */
  datatype Transition = StartProcessing | Complete(now: Time) | FailWith(reason: string, now: Time)

  /** The service call a transition names: a successful call moves along the lifecycle and keeps the job's identity. */
  function Apply(job: ImportJob, t: Transition): (r: Result<ImportJob>)
    ensures r.Ok? ==> Step(job.status, r.value.status) && SameJob(job, r.value)
  {
    match t
    case StartProcessing => MarkAsProcessing(job)
    case Complete(now) => MarkAsCompleted(job, now)
    case FailWith(reason, now) => MarkAsFailed(job, reason, now)
  }

  /** Successive calls, each on the copy the previous one returned; the first error ends the run. */
  function Run(job: ImportJob, ts: seq<Transition>): (r: Result<ImportJob>)
    ensures ts == [] ==> r == Ok(job)
    ensures r.Ok? ==> SameJob(job, r.value)
    decreases |ts|
  {
    if ts == [] then Ok(job)
    else
      match Apply(job, ts[0])
      case Err(e) => Err(e)
      case Ok(next) => Run(next, ts[1..])
  }

  /** Some transition succeeds exactly when the lifecycle relation allows a move. */
  lemma ApplyFollowsLifecycle(job: ImportJob)
    ensures (exists to :: Step(job.status, to)) <==> (exists t' :: Apply(job, t').Ok?)
  {
    if exists to :: Step(job.status, to) {
      assert Apply(job, FailWith("", 0)).Ok? || Apply(job, Complete(0)).Ok?;
    }
  }

  /** COMPLETED is terminal: every operation raises on it, so any further run fails. */
  lemma CompletedIsTerminal(job: ImportJob, ts: seq<Transition>)
    requires job.status == Completed
    ensures MarkAsProcessing(job).Err? && forall now :: MarkAsCompleted(job, now).Err?
    ensures forall e, now :: MarkAsFailed(job, e, now).Err?
    ensures ts != [] ==> Run(job, ts).Err?
  {
  }

  /** Once FAILED, a job can only be failed again. */
  lemma {:induction false} FailedStaysFailed(job: ImportJob, ts: seq<Transition>)
    requires job.status == Failed
    ensures Run(job, ts).Ok? ==> Run(job, ts).value.status == Failed
    decreases |ts|
  {
    if ts != [] && Apply(job, ts[0]).Ok? {
      FailedStaysFailed(Apply(job, ts[0]).value, ts[1..]);
    }
  }

  /** From PROCESSING, the only successful run that ends COMPLETED is a single markAsCompleted. */
  lemma {:induction false} CompletedFromProcessing(job: ImportJob, ts: seq<Transition>)
    requires job.status == Processing
    requires Run(job, ts).Ok? && Run(job, ts).value.status == Completed
    ensures |ts| == 1 && ts[0].Complete?
  {
    var t := ts[0];
    var next := Apply(job, t).value;
    if t.FailWith? {
      FailedStaysFailed(next, ts[1..]);
    } else {
      assert next.status == Completed;
      if ts[1..] != [] {
        CompletedIsTerminal(next, ts[1..]);
      }
    }
  }

  /**
   * A new job reaches COMPLETED only by markAsProcessing followed by markAsCompleted, and the completed
   * job is the created one with its processing time set.
   */
  lemma {:induction false} CompletedOnlyViaProcessing(dto: CreateImportJobDto, freshId: string, created: Time, ts: seq<Transition>)
    requires Run(CreateImportJob(dto, freshId, created), ts).Ok?
    requires Run(CreateImportJob(dto, freshId, created), ts).value.status == Completed
    ensures |ts| == 2 && ts[0] == StartProcessing && ts[1].Complete?
    ensures Run(CreateImportJob(dto, freshId, created), ts).value ==
              CreateImportJob(dto, freshId, created).(status := Completed, processedAt := Some(ts[1].now))
  {
    var job := CreateImportJob(dto, freshId, created);
    var t := ts[0];
    var next := Apply(job, t).value;
    if t.FailWith? {
      FailedStaysFailed(next, ts[1..]);
    } else {
      assert t == StartProcessing;
      CompletedFromProcessing(next, ts[1..]);
      assert ts[1..][1..] == [];
    }
  }
}
