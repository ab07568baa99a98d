/** The RTSP attendance stream manager: a registry of stream runtimes, each
    a single-shot capture loop. Frame grabbing, JPEG encoding and the
    recognition pipeline are oracles whose outcomes arrive as `Tick`s; the
    stop event is the `stopRequested` flag of a tick; the clock is the
    tick's `now`. */
module AiStream {
  import opened Common
  import AiService

  datatype StreamStatus = Starting | Running | Stopping | Completed | Failed | Stopped

  function StatusText(s: StreamStatus): string {
    match s
    case Starting => "starting"
    case Running => "running"
    case Stopping => "stopping"
    case Completed => "completed"
    case Failed => "failed"
    case Stopped => "stopped"
  }

  function ParseStatus(text: string): (r: Option<StreamStatus>)
    ensures r.Some? ==> StatusText(r.value) == text
  {
    if text == "starting" then Some(Starting)
    else if text == "running" then Some(Running)
    else if text == "stopping" then Some(Stopping)
    else if text == "completed" then Some(Completed)
    else if text == "failed" then Some(Failed)
    else if text == "stopped" then Some(Stopped)
    else None
  }

  /** The serialised status names each status once. */
  lemma StatusTextRoundTrip(s: StreamStatus)
    ensures ParseStatus(StatusText(s)) == Some(s)
  {
  }

  /** A runtime that blocks a second start for its session. */
  predicate IsActive(s: StreamStatus) {
    s == Starting || s == Running
  }

  const CaptureUnavailableMessage := "opencv-python dependency is unavailable for RTSP capture"
  const TimeoutMessage := "No usable frame received before stream timeout"
  const CaptureCompletedReason := "capture_completed"
  const DefaultStopReason := "stopped_by_user"
  const MinFrameTimeoutSeconds := 30

  /** `timeout_seconds`: the configured frame timeout, never below 30 s. */
  function EffectiveTimeout(configured: int): (t: int)
    ensures t >= MinFrameTimeoutSeconds
    ensures t == configured || t == MinFrameTimeoutSeconds
    ensures configured >= MinFrameTimeoutSeconds ==> t == configured
  {
    if configured > MinFrameTimeoutSeconds then configured else MinFrameTimeoutSeconds
  }

  /** The mutable fields of a runtime, as one value. */
  datatype Progress = Progress(
    status: StreamStatus,
    framesProcessed: nat,
    capturesSucceeded: nat,
    updatedAt: int,
    lastCaptureAt: Option<int>,
    lastError: Option<string>,
    stopReason: Option<string>,
    lastResult: Option<AiService.CaptureSummary>,
    stopRequested: bool)

  /** What one pass of the capture loop finds after its stop and deadline
      checks: the source not opened, a failed read, a frame that does not
      encode, a pipeline exception (with its text) or a pipeline result. */
  datatype FrameEvent =
    | NotOpened
    | ReadFailed
    | EncodeFailed
    | PipelineError(message: string)
    | PipelineOk(result: AiService.CaptureSummary)

  /** One check of the loop condition: whether the stop event is set, the
      clock, and what the pass then meets. */
  datatype Tick = Tick(stopRequested: bool, now: int, event: FrameEvent)

  /** Whether a pass reads a frame (and so counts it). */
  predicate ReadsFrame(e: FrameEvent) {
    e.EncodeFailed? || e.PipelineError? || e.PipelineOk?
  }

  /** The `while not stop_event.is_set()` loop of `_run_stream`, from
      progress `p`, over the ticks observed; the loop is still running when
      the ticks run out. */
  function RunLoop(p: Progress, ticks: seq<Tick>, deadline: int): Progress
    decreases |ticks|
  {
    if ticks == [] then p
    else
      var t := ticks[0];
      if t.stopRequested then p.(status := Stopped, updatedAt := t.now)
      else if t.now > deadline then p.(status := Failed, lastError := Some(TimeoutMessage), updatedAt := t.now)
      else match t.event
        case NotOpened => RunLoop(p, ticks[1..], deadline)
        case ReadFailed => RunLoop(p, ticks[1..], deadline)
        case EncodeFailed => RunLoop(p.(framesProcessed := p.framesProcessed + 1, updatedAt := t.now), ticks[1..], deadline)
        case PipelineError(message) =>
          RunLoop(p.(framesProcessed := p.framesProcessed + 1, lastError := Some(message), updatedAt := t.now),
                  ticks[1..], deadline)
        case PipelineOk(result) =>
          p.(framesProcessed := p.framesProcessed + 1, lastResult := Some(result),
             capturesSucceeded := p.capturesSucceeded + 1, lastCaptureAt := Some(t.now),
             status := Completed, stopReason := Some(CaptureCompletedReason), updatedAt := t.now)
  }

  /** The loop ends stopped, failed or completed, or is still in its
      status when the ticks run out; it never counts frames back and never
      touches the stop request. */
  lemma {:induction false} RunLoopEnds(p: Progress, ticks: seq<Tick>, deadline: int)
    ensures var r := RunLoop(p, ticks, deadline);
      && (r.status == p.status || r.status == Stopped || r.status == Failed || r.status == Completed)
      && r.framesProcessed >= p.framesProcessed
      && r.stopRequested == p.stopRequested
    decreases |ticks|
  {
    if ticks != [] && !ticks[0].stopRequested && ticks[0].now <= deadline {
      var t := ticks[0];
      match t.event
      case NotOpened => RunLoopEnds(p, ticks[1..], deadline);
      case ReadFailed => RunLoopEnds(p, ticks[1..], deadline);
      case EncodeFailed => RunLoopEnds(p.(framesProcessed := p.framesProcessed + 1, updatedAt := t.now), ticks[1..], deadline);
      case PipelineError(message) =>
        RunLoopEnds(p.(framesProcessed := p.framesProcessed + 1, lastError := Some(message), updatedAt := t.now),
                    ticks[1..], deadline);
      case PipelineOk(_) =>
    }
  }

  /** The whole of `_run_stream`: the runtime goes to "running", fails at
      once when the capture backend is missing, otherwise runs the loop
      against the deadline `startAt + timeout`. Whatever the runtime's
      status before, the run leaves it running, stopped, failed or
      completed, never "starting" or "stopping". */
  function Run(p: Progress, captureAvailable: bool, configuredTimeout: int, startAt: int, ticks: seq<Tick>): (r: Progress)
    ensures r.status == Running || r.status == Stopped || r.status == Failed || r.status == Completed
    ensures r.framesProcessed >= p.framesProcessed
  {
    var running := p.(status := Running, updatedAt := startAt);
    RunLoopEnds(running, ticks, startAt + EffectiveTimeout(configuredTimeout));
    if !captureAvailable then running.(status := Failed, lastError := Some(CaptureUnavailableMessage))
    else RunLoop(running, ticks, startAt + EffectiveTimeout(configuredTimeout))
  }

  // ---------------------------------------------------------------------
  // An independent account of the loop: the passes it gets through.

  /** The ticks whose frame event the loop looks at: up to the first stop
      or missed deadline (excluded) and the first pipeline result
      (included). */
  function Processed(ticks: seq<Tick>, deadline: int): (r: seq<Tick>)
    ensures |r| <= |ticks| && r == ticks[..|r|]
    decreases |ticks|
  {
    if ticks == [] || ticks[0].stopRequested || ticks[0].now > deadline then []
    else if ticks[0].event.PipelineOk? then [ticks[0]]
    else [ticks[0]] + Processed(ticks[1..], deadline)
  }

  /** How many of `ticks` read a frame. */
  function FramesRead(ticks: seq<Tick>): nat {
    if ticks == [] then 0 else (if ReadsFrame(ticks[0].event) then 1 else 0) + FramesRead(ticks[1..])
  }

  /** The loop counts exactly the frames read by the passes it gets
      through: unopened sources and failed reads do not count, frames that
      fail to encode do. */
  lemma {:induction false} RunLoopCountsFrames(p: Progress, ticks: seq<Tick>, deadline: int)
    ensures RunLoop(p, ticks, deadline).framesProcessed == p.framesProcessed + FramesRead(Processed(ticks, deadline))
    decreases |ticks|
  {
    if ticks != [] && !ticks[0].stopRequested && ticks[0].now <= deadline && !ticks[0].event.PipelineOk? {
      var t := ticks[0];
      var p' := if ReadsFrame(t.event) then
        (if t.event.PipelineError? then p.(framesProcessed := p.framesProcessed + 1, lastError := Some(t.event.message), updatedAt := t.now)
         else p.(framesProcessed := p.framesProcessed + 1, updatedAt := t.now))
        else p;
      assert RunLoop(p, ticks, deadline) == RunLoop(p', ticks[1..], deadline);
      RunLoopCountsFrames(p', ticks[1..], deadline);
      var processed := Processed(ticks, deadline);
      assert processed[0] == t && processed[1..] == Processed(ticks[1..], deadline);
    }
  }

  /** How the loop ends: still running only when every observed pass was
      gone through without a result; failing only on the deadline (a
      pipeline exception is retried); completing once, with its result. */
  lemma {:induction false} RunLoopOutcome(p: Progress, ticks: seq<Tick>, deadline: int)
    requires p.status == Running
    ensures var q := RunLoop(p, ticks, deadline);
      && q.status in {Running, Stopped, Failed, Completed}
      && (q.status == Running <==> (Processed(ticks, deadline) == ticks
                                   && forall i :: 0 <= i < |ticks| ==> !ticks[i].event.PipelineOk?))
      && (q.status == Failed ==> q.lastError == Some(TimeoutMessage))
      && (q.status == Completed <==> q.capturesSucceeded == p.capturesSucceeded + 1)
      && (q.status != Completed ==> q.capturesSucceeded == p.capturesSucceeded && q.lastResult == p.lastResult)
      && (q.status == Completed ==> q.lastResult.Some? && q.stopReason == Some(CaptureCompletedReason))
    decreases |ticks|
  {
    if ticks != [] && !ticks[0].stopRequested && ticks[0].now <= deadline && !ticks[0].event.PipelineOk? {
      var t := ticks[0];
      var p' := if ReadsFrame(t.event) then
        (if t.event.PipelineError? then p.(framesProcessed := p.framesProcessed + 1, lastError := Some(t.event.message), updatedAt := t.now)
         else p.(framesProcessed := p.framesProcessed + 1, updatedAt := t.now))
        else p;
      assert RunLoop(p, ticks, deadline) == RunLoop(p', ticks[1..], deadline);
      RunLoopOutcome(p', ticks[1..], deadline);
      var rest := ticks[1..];
      if Processed(rest, deadline) == rest {
        assert Processed(ticks, deadline) == [t] + rest == ticks;
      } else {
        assert |Processed(ticks, deadline)| == 1 + |Processed(rest, deadline)| < |ticks|;
      }
      if forall i :: 0 <= i < |rest| ==> !rest[i].event.PipelineOk? {
        forall i | 0 <= i < |ticks| ensures !ticks[i].event.PipelineOk? {
          if i > 0 {
            assert ticks[i] == rest[i - 1];
          }
        }
      } else {
        var i :| 0 <= i < |rest| && rest[i].event.PipelineOk?;
        assert ticks[i + 1] == rest[i];
      }
    } else if ticks != [] && !ticks[0].stopRequested && ticks[0].now <= deadline {
      assert |Processed(ticks, deadline)| == 1;
      assert ticks[0].event.PipelineOk?;
    } else if ticks != [] {
      assert |Processed(ticks, deadline)| == 0;
    }
  }

  /** Without the capture backend the run fails before reading a frame. */
  lemma {:induction false} MissingCaptureFails(p: Progress, configuredTimeout: int, startAt: int, ticks: seq<Tick>)
    ensures var q := Run(p, false, configuredTimeout, startAt, ticks);
      q.status == Failed && q.lastError == Some(CaptureUnavailableMessage) && q.framesProcessed == p.framesProcessed
  {
  }

  /** The loop fails with the timeout message at the first pass that
      finds the clock past the deadline, when every pass before it was
      unstopped, within the deadline and without a result. */
  lemma {:induction false} LoopFailsAtDeadline(p: Progress, ticks: seq<Tick>, deadline: int, n: nat)
    requires n < |ticks|
    requires forall j :: 0 <= j < n ==>
      !ticks[j].stopRequested && ticks[j].now <= deadline && !ticks[j].event.PipelineOk?
    requires !ticks[n].stopRequested && ticks[n].now > deadline
    ensures var q := RunLoop(p, ticks, deadline);
      q.status == Failed && q.lastError == Some(TimeoutMessage) && q.updatedAt == ticks[n].now
    decreases n
  {
    if n > 0 {
      var t := ticks[0];
      assert !t.stopRequested && t.now <= deadline && !t.event.PipelineOk?;
      forall j | 0 <= j < n - 1
        ensures !ticks[1..][j].stopRequested && ticks[1..][j].now <= deadline && !ticks[1..][j].event.PipelineOk?
      {
        assert ticks[1..][j] == ticks[j + 1];
      }
      assert ticks[1..][n - 1] == ticks[n];
      match t.event
      case NotOpened => LoopFailsAtDeadline(p, ticks[1..], deadline, n - 1);
      case ReadFailed => LoopFailsAtDeadline(p, ticks[1..], deadline, n - 1);
      case EncodeFailed =>
        LoopFailsAtDeadline(p.(framesProcessed := p.framesProcessed + 1, updatedAt := t.now), ticks[1..], deadline, n - 1);
      case PipelineError(message) =>
        LoopFailsAtDeadline(p.(framesProcessed := p.framesProcessed + 1, lastError := Some(message), updatedAt := t.now),
                            ticks[1..], deadline, n - 1);
    }
  }

  /** The first pass that finds the clock past `startAt + timeout`, after
      passes that were neither stopped nor completed, fails the run with
      the timeout message, whatever the configured timeout, never earlier
      than 30 s after the start. */
  lemma {:induction false} DeadlineFails(p: Progress, configuredTimeout: int, startAt: int, ticks: seq<Tick>, n: nat)
    requires n < |ticks|
    requires forall j :: 0 <= j < n ==>
      !ticks[j].stopRequested && ticks[j].now <= startAt + EffectiveTimeout(configuredTimeout)
      && !ticks[j].event.PipelineOk?
    requires !ticks[n].stopRequested && ticks[n].now > startAt + EffectiveTimeout(configuredTimeout)
    ensures var q := Run(p, true, configuredTimeout, startAt, ticks);
      q.status == Failed && q.lastError == Some(TimeoutMessage) && q.updatedAt == ticks[n].now
      && ticks[n].now > startAt + MinFrameTimeoutSeconds
  {
    LoopFailsAtDeadline(p.(status := Running, updatedAt := startAt), ticks, startAt + EffectiveTimeout(configuredTimeout), n);
  }

  /** A runtime that starts with no capture ends with at most one. */
  lemma {:induction false} AtMostOneCapture(p: Progress, captureAvailable: bool, configuredTimeout: int, startAt: int, ticks: seq<Tick>)
    requires p.capturesSucceeded == 0
    ensures Run(p, captureAvailable, configuredTimeout, startAt, ticks).capturesSucceeded <= 1
  {
    if captureAvailable {
      RunLoopOutcome(p.(status := Running, updatedAt := startAt), ticks, startAt + EffectiveTimeout(configuredTimeout));
    }
  }

  /** What `_serialize` reports about a runtime. */
  datatype StreamView = StreamView(
    streamId: Id,
    sessionId: Id,
    status: string,
    sourceUrl: string,
    framesProcessed: nat,
    capturesSucceeded: nat,
    startedAt: int,
    updatedAt: int,
    lastCaptureAt: Option<int>,
    lastError: Option<string>,
    stopReason: Option<string>,
    lastResult: Option<AiService.CaptureSummary>)

  /** `AIAttendanceStreamRuntime`. */
  class StreamRuntime {
    const streamId: Id
    const sessionId: Id
    const facultyId: Id
    const sourceUrl: string
    const confidenceThreshold: real
    const lateThresholdMinutes: int
    const startedAt: int
    var status: StreamStatus
    var framesProcessed: nat
    var capturesSucceeded: nat
    var updatedAt: int
    var lastCaptureAt: Option<int>
    var lastError: Option<string>
    var stopReason: Option<string>
    var lastResult: Option<AiService.CaptureSummary>
    var stopRequested: bool

    /** A new runtime: "starting", nothing processed, created at `now`. */
    constructor (streamId: Id, sessionId: Id, facultyId: Id, sourceUrl: string, confidenceThreshold: real,
                 lateThresholdMinutes: int, now: int)
      ensures this.streamId == streamId && this.sessionId == sessionId && this.facultyId == facultyId
      ensures this.sourceUrl == sourceUrl && this.confidenceThreshold == confidenceThreshold
      ensures this.lateThresholdMinutes == lateThresholdMinutes && startedAt == now
      ensures Snapshot() == Progress(Starting, 0, 0, now, None, None, None, None, false)
    {
      this.streamId := streamId;
      this.sessionId := sessionId;
      this.facultyId := facultyId;
      this.sourceUrl := sourceUrl;
      this.confidenceThreshold := confidenceThreshold;
      this.lateThresholdMinutes := lateThresholdMinutes;
      startedAt := now;
      status := Starting;
      framesProcessed := 0;
      capturesSucceeded := 0;
      updatedAt := now;
      lastCaptureAt := None;
      lastError := None;
      stopReason := None;
      lastResult := None;
      stopRequested := false;
    }

    /** The mutable fields as a value. */
    function Snapshot(): Progress
      reads this
    {
      Progress(status, framesProcessed, capturesSucceeded, updatedAt, lastCaptureAt, lastError, stopReason,
               lastResult, stopRequested)
    }

    /** The body of `_run_stream` on this runtime: "running" from `startAt`,
        then the frame loop over `ticks` until it stops, fails or completes. */
    method RunTicks(captureAvailable: bool, configuredTimeout: int, startAt: int, ticks: seq<Tick>)
      modifies this
      ensures Snapshot() == Run(old(Snapshot()), captureAvailable, configuredTimeout, startAt, ticks)
    {
      status := Running;
      updatedAt := startAt;
      if !captureAvailable {
        status := Failed;
        lastError := Some(CaptureUnavailableMessage);
        return;
      }
      var deadline := startAt + EffectiveTimeout(configuredTimeout);
      ghost var goal := Run(old(Snapshot()), captureAvailable, configuredTimeout, startAt, ticks);
      var i := 0;
      while i < |ticks|
        invariant 0 <= i <= |ticks|
        invariant status == Running
        invariant RunLoop(Snapshot(), ticks[i..], deadline) == goal
        decreases |ticks| - i
      {
        var t := ticks[i];
        assert ticks[i..][0] == t && ticks[i..][1..] == ticks[i + 1..];
        if t.stopRequested {
          status := Stopped;
          updatedAt := t.now;
          return;
        }
        if t.now > deadline {
          status := Failed;
          lastError := Some(TimeoutMessage);
          updatedAt := t.now;
          return;
        }
        match t.event {
          case NotOpened =>
          case ReadFailed =>
          case EncodeFailed =>
            framesProcessed := framesProcessed + 1;
            updatedAt := t.now;
          case PipelineError(message) =>
            framesProcessed := framesProcessed + 1;
            lastError := Some(message);
            updatedAt := t.now;
          case PipelineOk(result) =>
            framesProcessed := framesProcessed + 1;
            lastResult := Some(result);
            capturesSucceeded := capturesSucceeded + 1;
            lastCaptureAt := Some(t.now);
            status := Completed;
            stopReason := Some(CaptureCompletedReason);
            updatedAt := t.now;
            return;
        }
        i := i + 1;
      }
    }

    /** `_serialize`. */
    function Serialize(): (v: StreamView)
      reads this
      ensures ParseStatus(v.status) == Some(status)
      ensures v.streamId == streamId && v.framesProcessed == framesProcessed && v.capturesSucceeded == capturesSucceeded
    {
      StatusTextRoundTrip(status);
      StreamView(streamId, sessionId, StatusText(status), sourceUrl, framesProcessed, capturesSucceeded,
                 startedAt, updatedAt, lastCaptureAt, lastError, stopReason, lastResult)
    }

    /** Writes a whole progress value back into the runtime's mutable
        fields; the identity fields are constants and stay as they were. */
    method SetProgress(p: Progress)
      modifies this
      ensures Snapshot() == p
    {
      status := p.status;
      framesProcessed := p.framesProcessed;
      capturesSucceeded := p.capturesSucceeded;
      updatedAt := p.updatedAt;
      lastCaptureAt := p.lastCaptureAt;
      lastError := p.lastError;
      stopReason := p.stopReason;
      lastResult := p.lastResult;
      stopRequested := p.stopRequested;
    }
  }

  /** How the awaited capture task ended, if `stop_stream` found one still
      pending. The stop event is set before the wait, and every suspension
      point of the loop is a retry sleep followed by the stop check, so the
      task can only return at that check ("stopped"), fail at once because
      it had not yet started and the capture backend is missing, or sleep
      past the 5 s wait and be cancelled. */
  datatype AwaitOutcome =
    | NoPendingTask
    | EndedStopped(at: int)
    | EndedUnavailable(at: int)
    | AwaitTimedOut(at: int)

  /** The runtime's state once `stop_stream` returns, from the state after
      it set "stopping". */
  function AfterStop(p: Progress, outcome: AwaitOutcome, now: int): Progress {
    var awaited := match outcome
      case NoPendingTask => p
      case EndedStopped(at) => p.(status := Stopped, updatedAt := at)
      case EndedUnavailable(at) => p.(status := Failed, lastError := Some(CaptureUnavailableMessage), updatedAt := at)
      case AwaitTimedOut(at) => p.(status := Stopped, updatedAt := at);
    if awaited.status == Stopping then awaited.(status := Stopped, updatedAt := now) else awaited
  }

  /** `AIAttendanceStreamManager`: the registry of runtimes by stream id. */
  class StreamManager {
    var streams: map<Id, StreamRuntime>

    constructor ()
      ensures streams == map[]
    {
      streams := map[];
    }

    /** Every runtime is registered under its own id, and no session has
        two runtimes that are starting or running. */
    ghost predicate Valid()
      reads this, streams.Values
    {
      && (forall k :: k in streams ==> streams[k].streamId == k)
      && (forall k1, k2 :: (k1 in streams && k2 in streams && k1 != k2 && streams[k1].sessionId == streams[k2].sessionId)
            ==> !(IsActive(streams[k1].status) && IsActive(streams[k2].status)))
    }

    /** Whether a runtime of the session blocks a new start. */
    predicate HasActiveStream(sessionId: Id)
      reads this, streams.Values
    {
      exists k :: k in streams && streams[k].sessionId == sessionId && IsActive(streams[k].status)
    }

    /** `start_stream`: refuses while the session has a starting or running
        runtime, otherwise registers a new "starting" runtime under a fresh
        id (the capture task is `RunStream`). */
    method StartStream(sessionId: Id, facultyId: Id, sourceUrl: string, confidenceThreshold: real,
                       lateThresholdMinutes: int, now: int)
      returns (r: Result<StreamView>)
      modifies this
      ensures old(HasActiveStream(sessionId)) ==>
        r == Err(ValueError("An active stream already exists for this session")) && streams == old(streams)
      ensures !old(HasActiveStream(sessionId)) ==> r.Ok?
      ensures r.Ok? ==>
        var id := r.value.streamId;
        && id !in old(streams) && id in streams && fresh(streams[id])
        && streams == old(streams)[id := streams[id]]
        && streams[id].sessionId == sessionId && streams[id].facultyId == facultyId
        && streams[id].sourceUrl == sourceUrl && streams[id].confidenceThreshold == confidenceThreshold
        && streams[id].lateThresholdMinutes == lateThresholdMinutes
        && streams[id].Snapshot() == Progress(Starting, 0, 0, now, None, None, None, None, false)
        && r.value == streams[id].Serialize()
      ensures old(Valid()) ==> Valid()
    {
      if exists k :: k in streams && streams[k].sessionId == sessionId && IsActive(streams[k].status) {
        return Err(ValueError("An active stream already exists for this session"));
      }
      FreshIdExists(streams.Keys);
      var id :| id !in streams.Keys;
      var runtime := new StreamRuntime(id, sessionId, facultyId, sourceUrl, confidenceThreshold, lateThresholdMinutes, now);
      streams := streams[id := runtime];
      r := Ok(runtime.Serialize());
    }

    /** `_get_runtime`. */
    function GetRuntime(streamId: Id): (r: Result<StreamRuntime>)
      reads this
      ensures r.Ok? <==> streamId in streams
      ensures r.Ok? ==> r.value == streams[streamId]
      ensures r.Err? ==> r.error == LookupError("Stream not found")
    {
      if streamId in streams then Ok(streams[streamId]) else Err(LookupError("Stream not found"))
    }

    /** `get_stream_status`: reports the runtime, changing nothing. */
    method GetStreamStatus(streamId: Id) returns (r: Result<StreamView>)
      ensures r.Err? <==> streamId !in streams
      ensures r.Err? ==> r.error == LookupError("Stream not found")
      ensures r.Ok? ==> r.value == streams[streamId].Serialize() && r.value.streamId == streams[streamId].streamId
    {
      var runtime := GetRuntime(streamId);
      if runtime.Err? {
        return Err(runtime.error);
      }
      r := Ok(runtime.value.Serialize());
    }

    /** `stop_stream`: records the stop request and reason, marks the
        runtime "stopping", lets a pending task end (`outcome`), and turns a
        runtime still "stopping" into "stopped". A runtime that had already
        completed or failed is reported as stopped. */
    method StopStream(streamId: Id, reason: string, now: int, outcome: AwaitOutcome) returns (r: Result<StreamView>)
      modifies if streamId in streams then {streams[streamId]} else {}
      ensures r.Err? <==> streamId !in streams
      ensures r.Err? ==> r.error == LookupError("Stream not found")
      ensures r.Ok? ==>
        var runtime := streams[streamId];
        && runtime.Snapshot() == AfterStop(old(runtime.Snapshot()).(stopRequested := true, stopReason := Some(reason),
                                                                      status := Stopping, updatedAt := now), outcome, now)
        && runtime.status != Stopping && !IsActive(runtime.status)
        && (runtime.status == Stopped
            || (outcome.EndedUnavailable? && runtime.status == Failed
                && runtime.lastError == Some(CaptureUnavailableMessage)))
        && r.value == runtime.Serialize()
      ensures old(Valid()) ==> Valid()
    {
      var found := GetRuntime(streamId);
      if found.Err? {
        return Err(found.error);
      }
      var runtime := found.value;
      runtime.stopRequested := true;
      runtime.stopReason := Some(reason);
      runtime.status := Stopping;
      runtime.updatedAt := now;
      var stopped := AfterStop(runtime.Snapshot(), outcome, now);
      runtime.SetProgress(stopped);
      r := Ok(runtime.Serialize());
    }

    /** `_run_stream` on one runtime. `captureAvailable` says whether the
        capture backend is installed, `configuredTimeout` is the frame
        timeout setting, `startAt` the instant the loop starts. Run on a
        runtime that `StartStream` registered, it keeps the registry
        valid. */
    method RunStream(runtime: StreamRuntime, captureAvailable: bool, configuredTimeout: int, startAt: int, ticks: seq<Tick>)
      modifies runtime
      ensures runtime.Snapshot() == Run(old(runtime.Snapshot()), captureAvailable, configuredTimeout, startAt, ticks)
      ensures old(Valid()) && runtime in streams.Values && old(runtime.status) == Starting ==> Valid()
    {
      runtime.RunTicks(captureAvailable, configuredTimeout, startAt, ticks);
    }
  }
}
