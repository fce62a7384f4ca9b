/** The polling loop: fetch, analyse, update the sheet, write the report,
    announce, sleep, all inside one exception handler, repeated forever.
    Each foreign stage is an oracle that either completes or raises. */
module Scheduler {
  import opened Results
  import opened Assets
  import opened Fetcher
  import opened Statistics

  /** Seconds slept after a completed cycle. */
  const PollInterval: nat := 300

  /** Outcome of a stage whose work happens outside the model. */
  datatype Stage = Completes | Raises

  /** What the outside world does during one cycle: the HTTP response, and
      whether the spreadsheet update and the report write complete. */
  datatype Environment = Environment(response: Response, sheetUpdate: Stage, reportWrite: Stage)

  /** The exception that ends a cycle early. */
  datatype CycleError =
    | FetchFailed(fetch: FetchError)
    | AnalysisFailed(analysis: AnalysisError)
    | SheetUpdateFailed
    | ReportWriteFailed

  /** Console lines. */
  datatype Message = ExcelUpdated | DataUpdated | ErrorOccurred(error: CycleError)

  /** Observable actions, in the order they happen. */
  datatype Event =
    | FetchCalled(query: Query)
    | AnalyzeCalled
    | SheetUpdateCalled
    | ReportWriteCalled
    | Printed(message: Message)
    | Slept(seconds: nat)

  /** One pass through the loop body: its actions, the table the sheet update
      saved and the report written, if those stages completed, and the
      exception caught, if any. */
  datatype CycleResult = CycleResult(
    events: seq<Event>,
    sheet: Option<seq<Row>>,
    report: Option<Report>,
    error: Option<CycleError>)

  /** The actions of a cycle in which nothing raises. */
  const CompleteCycle: seq<Event> := [
    FetchCalled(MarketsQuery), AnalyzeCalled, SheetUpdateCalled, Printed(ExcelUpdated),
    ReportWriteCalled, Printed(DataUpdated), Slept(PollInterval)]

  /** The call that raises a given exception. */
  function RaisingCall(e: CycleError): Event {
    match e
    case FetchFailed(_) => FetchCalled(MarketsQuery)
    case AnalysisFailed(_) => AnalyzeCalled
    case SheetUpdateFailed => SheetUpdateCalled
    case ReportWriteFailed => ReportWriteCalled
  }

  /** The loop body. The first stage that raises jumps to the handler, which
      prints the error; every later stage, and the sleep, is skipped. */
  function RunCycle(env: Environment): CycleResult {
    var fetch := FetchCalled(MarketsQuery);
    match Fetch(env.response)
    case Failure(e) =>
      CycleResult([fetch, Printed(ErrorOccurred(FetchFailed(e)))], None, None, Some(FetchFailed(e)))
    case Success(data) =>
      match Analyze(data)
      case Failure(e) =>
        CycleResult([fetch, AnalyzeCalled, Printed(ErrorOccurred(AnalysisFailed(e)))],
                    None, None, Some(AnalysisFailed(e)))
      case Success(a) =>
        if env.sheetUpdate == Raises then
          CycleResult([fetch, AnalyzeCalled, SheetUpdateCalled, Printed(ErrorOccurred(SheetUpdateFailed))],
                      None, None, Some(SheetUpdateFailed))
        else if env.reportWrite == Raises then
          CycleResult([fetch, AnalyzeCalled, SheetUpdateCalled, Printed(ExcelUpdated),
                       ReportWriteCalled, Printed(ErrorOccurred(ReportWriteFailed))],
                      Some(a.table), None, Some(ReportWriteFailed))
        else
          CycleResult([fetch, AnalyzeCalled, SheetUpdateCalled, Printed(ExcelUpdated),
                       ReportWriteCalled, Printed(DataUpdated), Slept(PollInterval)],
                      Some(a.table), Some(a.report), None)
  }

  /** A cycle completes exactly when the status is 200, the payload is not
      empty and both publishing stages complete; exactly then it performs
      every stage in order and sleeps, and it publishes the analysis of the
      payload to both sinks. */
  lemma CycleCompletes(env: Environment)
    ensures var c := RunCycle(env);
      && (c.error.None? <==>
            env.response.status == StatusOk && |env.response.payload| > 0
            && env.sheetUpdate == Completes && env.reportWrite == Completes)
      && (c.error.None? <==> c.events == CompleteCycle)
      && (c.error.None? ==>
            var a := Analyze(env.response.payload).value;
            c.sheet == Some(a.table) && c.report == Some(a.report))
  {
  }

  /** A cycle that raises stops at the raising stage: its actions are the
      complete cycle's actions up to and including the raising call, followed
      by the error line. No sleep happens. */
  lemma FailedCycleStopsAtRaisingStage(env: Environment)
    requires RunCycle(env).error.Some?
    ensures var c := RunCycle(env);
      var n := |c.events| - 1;
      && 2 <= |c.events| < |CompleteCycle|
      && c.events[n] == Printed(ErrorOccurred(c.error.value))
      && c.events[..n] == CompleteCycle[..n]
      && c.events[n - 1] == RaisingCall(c.error.value)
      && (forall i :: 0 <= i < |c.events| ==> !c.events[i].Slept?)
      && c.report.None?
  {
  }

  /** An exception from the sheet update also prevents the report write in
      that cycle, whatever the report write would have done. */
  lemma SheetFailureSkipsReport(env: Environment)
    requires env.response.status == StatusOk && |env.response.payload| > 0
    requires env.sheetUpdate == Raises
    ensures var c := RunCycle(env);
      && c.error == Some(SheetUpdateFailed)
      && ReportWriteCalled !in c.events
      && c.sheet.None? && c.report.None?
  {
  }

  /** State of the running loop: cycles run, the table of the last completed
      sheet update, the content of the last completed report write, and every
      action so far. A stage that raises part-way may leave the real sheet
      cleared or the real report file truncated; these fields do not track that. */
  datatype LoopState = LoopState(
    cycles: nat,
    sheet: Option<seq<Row>>,
    report: Option<Report>,
    trace: seq<Event>)

  /** One iteration of `while True`: run the body, catch whatever it raises,
      and continue. The last completed sheet update and report write change
      only when the cycle completes that stage. */
  function Step(s: LoopState, env: Environment): LoopState {
    var c := RunCycle(env);
    LoopState(
      s.cycles + 1,
      if c.sheet.Some? then c.sheet else s.sheet,
      if c.report.Some? then c.report else s.report,
      s.trace + c.events)
  }

  /** The loop observed over a finite sequence of environments, one per cycle.
      The loop itself never stops; only the observation ends. */
  function Run(s: LoopState, envs: seq<Environment>): LoopState
    decreases |envs|
  {
    if envs == [] then s else Run(Step(s, envs[0]), envs[1..])
  }

  lemma StepExtendsTrace(s: LoopState, env: Environment)
    ensures Step(s, env).trace == s.trace + RunCycle(env).events
  {
  }

  lemma AppendAssociates(a: seq<Event>, b: seq<Event>, c: seq<Event>)
    ensures (a + b) + c == a + (b + c)
  {
  }

  /** The actions of the given cycles, one after the other. */
  function CycleEvents(envs: seq<Environment>): seq<Event>
    decreases |envs|
  {
    if envs == [] then [] else RunCycle(envs[0]).events + CycleEvents(envs[1..])
  }

  /** Cycles in which nothing raises. */
  function Completed(envs: seq<Environment>): nat
    decreases |envs|
  {
    if envs == [] then 0
    else (if RunCycle(envs[0]).error.None? then 1 else 0) + Completed(envs[1..])
  }

  /** Total seconds slept in a trace. */
  function SleepTime(trace: seq<Event>): nat
    decreases |trace|
  {
    if trace == [] then 0
    else (if trace[0].Slept? then trace[0].seconds else 0) + SleepTime(trace[1..])
  }

  lemma {:induction false} SleepTimeAppend(a: seq<Event>, b: seq<Event>)
    ensures SleepTime(a + b) == SleepTime(a) + SleepTime(b)
    decreases |a|
  {
    if a != [] {
      assert (a + b)[1..] == a[1..] + b;
      SleepTimeAppend(a[1..], b);
    } else {
      assert a + b == b;
    }
  }

  /** Every environment yields exactly one cycle, whatever it raises: no
      outcome ends the loop. */
  lemma {:induction false} RunNeverStops(s: LoopState, envs: seq<Environment>)
    ensures Run(s, envs).cycles == s.cycles + |envs|
    decreases |envs|
  {
    if envs != [] {
      RunNeverStops(Step(s, envs[0]), envs[1..]);
    }
  }

  /** The trace is the cycles' actions back to back: after a failed cycle the
      next cycle's fetch follows the error line immediately. */
  lemma {:induction false} RunTrace(s: LoopState, envs: seq<Environment>)
    ensures Run(s, envs).trace == s.trace + CycleEvents(envs)
    decreases |envs|
  {
    if envs != [] {
      var events := RunCycle(envs[0]).events;
      var next := Step(s, envs[0]);
      StepExtendsTrace(s, envs[0]);
      RunTrace(next, envs[1..]);
      AppendAssociates(s.trace, events, CycleEvents(envs[1..]));
    }
  }

  /** Only completed cycles sleep, each for the full interval; a failed cycle
      goes straight on to the next fetch. */
  lemma {:induction false} RunSleepTime(s: LoopState, envs: seq<Environment>)
    ensures SleepTime(Run(s, envs).trace) == SleepTime(s.trace) + PollInterval * Completed(envs)
    decreases |envs|
  {
    if envs != [] {
      var c := RunCycle(envs[0]);
      var next := Step(s, envs[0]);
      assert next.trace == s.trace + c.events;
      SleepTimeAppend(s.trace, c.events);
      if c.error.None? {
        CycleCompletes(envs[0]);
        CompleteCycleSleepsOnce();
        assert SleepTime(c.events) == PollInterval;
      } else {
        FailedCycleStopsAtRaisingStage(envs[0]);
        NoSleepNoTime(c.events);
      }
      RunSleepTime(next, envs[1..]);
      assert Run(s, envs) == Run(next, envs[1..]);
      assert Completed(envs) == (if c.error.None? then 1 else 0) + Completed(envs[1..]);
    }
  }

  /** A complete cycle sleeps once, for the full interval. */
  lemma CompleteCycleSleepsOnce()
    ensures SleepTime(CompleteCycle) == PollInterval
  {
    var n := |CompleteCycle| - 1;
    SleepTimeAppend(CompleteCycle[..n], [Slept(PollInterval)]);
    NoSleepNoTime(CompleteCycle[..n]);
    assert CompleteCycle == CompleteCycle[..n] + [Slept(PollInterval)];
  }

  lemma {:induction false} NoSleepNoTime(trace: seq<Event>)
    requires forall i :: 0 <= i < |trace| ==> !trace[i].Slept?
    ensures SleepTime(trace) == 0
    decreases |trace|
  {
    if trace != [] {
      NoSleepNoTime(trace[1..]);
    }
  }

  /** Cycles that raise complete no report write, so the last completed report
      stays as it was. */
  lemma {:induction false} FailuresKeepReport(s: LoopState, envs: seq<Environment>)
    requires forall i :: 0 <= i < |envs| ==> RunCycle(envs[i]).error.Some?
    ensures Run(s, envs).report == s.report
    decreases |envs|
  {
    if envs != [] {
      FailedCycleStopsAtRaisingStage(envs[0]);
      FailuresKeepReport(Step(s, envs[0]), envs[1..]);
    }
  }
}
