/** The enrichment queue: submitters, a bounded channel, and one worker that processes in batches. */
module Enrichments {

  datatype Task = Task(filePath: string, content: string, language: string)

  const CAPACITY: nat := 1024

  /** What channel and worker hold, and what has happened: tasks the channel accepted, tasks handed to the
      analyzer, full batches handed over, and submissions counted. */
  datatype State = State(
    accepted: seq<Task>,
    channel: seq<Task>,
    batch: seq<Task>,
    processed: seq<Task>,
    fullBatches: nat,
    total: nat,
    closed: bool,
    exited: bool)

  /** A submission is counted, then sent; the worker receives, and processes a full batch, or, once the channel is
      closed and empty, the rest. */
  datatype Step = Announce | Send(task: Task) | Close | Receive | ProcessFull | ProcessRest

  predicate Enabled(batchSize: nat, s: State, step: Step) {
    match step
    case Announce => !s.closed
    case Send(_) => !s.closed && |s.channel| < CAPACITY && |s.accepted| < s.total
    case Close => !s.closed
    case Receive => !s.exited && |s.batch| < batchSize && s.channel != []
    case ProcessFull => !s.exited && |s.batch| >= batchSize
    case ProcessRest => !s.exited && |s.batch| < batchSize && s.channel == [] && s.closed
  }

  function Next(batchSize: nat, s: State, step: Step): State
    requires Enabled(batchSize, s, step)
  {
    match step
    case Announce => s.(total := s.total + 1)
    case Send(task) => s.(accepted := s.accepted + [task], channel := s.channel + [task])
    case Close => s.(closed := true)
    case Receive => s.(channel := s.channel[1..], batch := s.batch + [s.channel[0]])
    case ProcessFull => s.(processed := s.processed + s.batch, batch := [], fullBatches := s.fullBatches + 1)
    case ProcessRest => s.(processed := s.processed + s.batch, batch := [], exited := true)
  }

  datatype Moment = Moment(before: State, step: Step, after: State)

  type Run = seq<Moment>

  function Final(run: Run): State {
    if run == [] then State([], [], [], [], 0, 0, false, false) else run[|run| - 1].after
  }

  predicate IsRun(batchSize: nat, run: Run) {
    run != [] ==>
      var front, last := run[..|run| - 1], run[|run| - 1];
      && IsRun(batchSize, front) && last.before == Final(front)
      && Enabled(batchSize, last.before, last.step) && last.after == Next(batchSize, last.before, last.step)
  }

  /** No task is lost, duplicated or overtaken; only the last batch may be short, and only after closing. */
  ghost predicate Conserves(batchSize: nat, s: State) {
    && s.accepted == s.processed + s.batch + s.channel
    && |s.accepted| <= s.total
    && |s.batch| <= batchSize && |s.channel| <= CAPACITY
    && (!s.exited ==> |s.processed| == s.fullBatches * batchSize)
    && (s.exited ==>
        s.closed && s.processed == s.accepted
        && 0 <= |s.processed| - s.fullBatches * batchSize < batchSize)
  }

  lemma StepConserves(batchSize: nat, s: State, step: Step)
    requires Enabled(batchSize, s, step) && Conserves(batchSize, s)
    ensures Conserves(batchSize, Next(batchSize, s, step))
  {
    var t := Next(batchSize, s, step);
    match step
    case Receive =>
      assert s.channel == [s.channel[0]] + s.channel[1..];
      assert s.processed + s.batch + s.channel == t.processed + t.batch + t.channel;
    case ProcessFull =>
      assert t.fullBatches * batchSize == s.fullBatches * batchSize + batchSize;
    case _ =>
  }

  /** At every moment of every run the accepted tasks are those processed, those in the batch and those in the
      channel, in order; after the worker has exited they have all been processed, each once. */
  lemma {:induction false} EveryTaskIsAccountedFor(batchSize: nat, run: Run)
    requires IsRun(batchSize, run)
    ensures Conserves(batchSize, Final(run))
  {
    if run != [] {
      var last := run[|run| - 1];
      EveryTaskIsAccountedFor(batchSize, run[..|run| - 1]);
      StepConserves(batchSize, last.before, last.step);
    }
  }

  predicate IsWorkerStep(step: Step) { step.Receive? || step.ProcessFull? || step.ProcessRest? }

  /** The worker waits exactly while the channel is open and empty and its batch is not full. */
  lemma WorkerWaitsExactlyWhen(batchSize: nat, s: State)
    ensures (exists step :: IsWorkerStep(step) && Enabled(batchSize, s, step))
      <==> !s.exited && (s.closed || s.channel != [] || |s.batch| >= batchSize)
  {
    if !s.exited && (s.closed || s.channel != [] || |s.batch| >= batchSize) {
      var step := if |s.batch| >= batchSize then ProcessFull else if s.channel != [] then Receive else ProcessRest;
      assert IsWorkerStep(step) && Enabled(batchSize, s, step);
    }
  }

  /** With a batch size of zero the worker spins on empty batches: it never takes a task and never exits. */
  lemma {:induction false} ZeroBatchSizeDoesNothing(run: Run)
    requires IsRun(0, run)
    ensures Final(run).processed == [] && Final(run).channel == Final(run).accepted && !Final(run).exited
  {
    if run != [] {
      ZeroBatchSizeDoesNothing(run[..|run| - 1]);
      EveryTaskIsAccountedFor(0, run[..|run| - 1]);
    }
  }

  // ----- how long a closed queue still works -----

  /** How many full batches can be made of n tasks. */
  function FullBatches(n: nat, batchSize: nat): nat
    requires batchSize > 0
  {
    if n < batchSize then 0 else 1 + FullBatches(n - batchSize, batchSize)
  }

  /** The steps a closed queue's worker has left: one for every queued task, one for every full batch to come, and
      the last one. */
  function StepsLeft(batchSize: nat, s: State): nat
    requires batchSize > 0
  {
    if s.exited then 0 else |s.channel| + FullBatches(|s.batch| + |s.channel|, batchSize) + 1
  }

  lemma StepCounts(batchSize: nat, s: State, step: Step)
    requires batchSize > 0 && s.closed && Conserves(batchSize, s) && Enabled(batchSize, s, step)
    ensures Next(batchSize, s, step).closed
    ensures StepsLeft(batchSize, s) == StepsLeft(batchSize, Next(batchSize, s, step)) + 1
  {}

  /** Every run of a closed queue takes exactly the steps it had left, one by one, however they are scheduled. */
  lemma {:induction false} ClosedQueueCountsDown(batchSize: nat, run: Run, longer: Run)
    requires batchSize > 0 && IsRun(batchSize, longer) && run <= longer && Final(run).closed
    ensures Final(longer).closed
    ensures |longer| - |run| + StepsLeft(batchSize, Final(longer)) == StepsLeft(batchSize, Final(run))
    decreases |longer|
  {
    if |longer| > |run| {
      var front, last := longer[..|longer| - 1], longer[|longer| - 1];
      ClosedQueueCountsDown(batchSize, run, front);
      EveryTaskIsAccountedFor(batchSize, front);
      StepCounts(batchSize, last.before, last.step);
    } else {
      assert longer == run;
    }
  }

  lemma Then(batchSize: nat, run: Run, step: Step) returns (longer: Run)
    requires IsRun(batchSize, run) && Enabled(batchSize, Final(run), step)
    ensures IsRun(batchSize, longer) && run <= longer && |longer| == |run| + 1
    ensures Final(longer) == Next(batchSize, Final(run), step)
  {
    longer := run + [Moment(Final(run), step, Next(batchSize, Final(run), step))];
    assert longer[..|run|] == run;
  }

  /** A closed queue never gets stuck before its worker has exited. */
  lemma {:induction false} Drain(batchSize: nat, run: Run) returns (longer: Run)
    requires batchSize > 0 && IsRun(batchSize, run) && Final(run).closed
    ensures IsRun(batchSize, longer) && run <= longer && Final(longer).exited
    decreases StepsLeft(batchSize, Final(run))
  {
    longer := run;
    if !Final(run).exited {
      WorkerWaitsExactlyWhen(batchSize, Final(run));
      var step :| IsWorkerStep(step) && Enabled(batchSize, Final(run), step);
      EveryTaskIsAccountedFor(batchSize, run);
      StepCounts(batchSize, Final(run), step);
      longer := Then(batchSize, run, step);
      longer := Drain(batchSize, longer);
    }
  }

  /** The worker can still exit if and only if batches have room. */
  lemma WorkerExitsExactlyWithRoom(batchSize: nat, run: Run)
    requires IsRun(batchSize, run)
    ensures (exists longer :: IsRun(batchSize, longer) && run <= longer && Final(longer).exited) <==> batchSize > 0
  {
    if batchSize == 0 {
      forall longer | IsRun(batchSize, longer) ensures !Final(longer).exited {
        ZeroBatchSizeDoesNothing(longer);
      }
    } else {
      var closed := run;
      if !Final(run).closed {
        closed := Then(batchSize, run, Close);
      }
      var drained := Drain(batchSize, closed);
    }
  }

  /** With room in its batches the worker of a closed queue does exit, whatever the schedule: when the steps it had
      left have been taken, and no sooner. */
  lemma WorkerExitsOnTime(batchSize: nat, run: Run, longer: Run)
    requires batchSize > 0 && IsRun(batchSize, longer) && run <= longer && Final(run).closed
    ensures var deadline := |run| + StepsLeft(batchSize, Final(run));
      |longer| <= deadline && (Final(longer).exited <==> |longer| == deadline)
      && (Final(longer).exited ==> Final(longer).processed == Final(longer).accepted)
  {
    ClosedQueueCountsDown(batchSize, run, longer);
    EveryTaskIsAccountedFor(batchSize, longer);
  }
}
