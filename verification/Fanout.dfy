/** The streaming fan-out as a step system.

One dispatcher (`fanoutCopy` driving `fanoutWriter.Write` and `collect`), one pump, one
pipe and one sink per target, and a context that may end at any time. An action is one
step of one of these goroutines, so a sequence of actions is one interleaving. */
module Fanout {
  import opened Content

  /** What is fixed for one object: its key, the size cap, the buffer, the targets. */
  datatype Job = Job(hash: Hash, compress: Compressor, key: Id, cap: nat, buffer: nat,
                     codecs: seq<Codec>, stalls: bool)

  datatype Pump = Parked | Writing(rest: Bytes) | Signalling | Exited
  datatype WriteEnd = Open | Shut(err: Option<Err>)
  datatype Commit = Nothing | Partial | Full(bytes: Bytes)
  datatype Attempt = Running | Returned(ok: bool, eof: bool)

  /** One target: its pump, its pipe, the bytes its reader took, and its sink. `store` is
  the sink call itself, `result` what `storeWithCtx` reported for it. */
  datatype Lane = Lane(pump: Pump, dead: bool, pending: bool, readerShut: bool, write: WriteEnd,
                       received: Bytes, pipeEOF: bool, sinkEOF: bool, cancelled: bool,
                       store: Attempt, result: Attempt, commit: Commit)

  datatype Stage = Waiting | Draining | Dropping(next: nat) | Ticked

  datatype Phase =
    | Filling(buf: Bytes)
    | Dispatching(chunk: Bytes, next: nat, dispatched: nat, rerr: Option<Err>)
    | Collecting(chunk: Bytes, got: nat, dispatched: nat, stage: Stage, rerr: Option<Err>)
    | Stopping(err: Option<Err>)
    | Shutting(err: Option<Err>, next: nat)
    | Joining(err: Option<Err>)
    | Done(err: Option<Err>, ended: Option<Err>)

  /** `seen` is what the verifying reader hashed, `sent` what completed writes delivered,
  `done` the buffered channel on which pumps signal, `ctx` the context's error. */
  datatype State = State(phase: Phase, seen: Bytes, sent: Bytes, lanes: seq<Lane>, done: seq<nat>, ctx: Option<Err>)

  datatype LaneAct =
    | PipeRead(n: nat)
    | WriteDone
    | WriteFail
    | ReadEOF
    | SinkEOF
    | SinkCommit
    | StoreReturn(ok: bool)
    | Collect
    | Abandon
    | ShutReader

  datatype Action =
    | SourceRead(bytes: Bytes, e: Option<Err>)
    | SourcePanic
    | Dispatch
    | DispatchEnd
    | Receive
    | Tick
    | DrainEnd
    | Drop
    | DropEnd
    | Join
    | StopPumps
    | ShutWriter
    | ShutEnd
    | Return
    | CtxEnd(cause: Err)
    | Signal(i: nat)
    | OnLane(i: nat, act: LaneAct)

  function FreshLane(): Lane {
    Lane(Parked, false, false, false, Open, [], false, false, false, Running, Running, Nothing)
  }

  function Init(job: Job): State {
    State(Filling([]), [], [], seq(|job.codecs|, _ => FreshLane()), [], None)
  }

  /** The switch at the end of the copy loop. */
  function AfterChunk(rerr: Option<Err>): Phase {
    if rerr == None then Filling([])
    else if EndOfStream(rerr) then Stopping(None)
    else Stopping(rerr)
  }

  /** `io.ReadFull`: a full buffer drops whatever error came with it, a partial one turns
  EOF into ErrUnexpectedEOF. */
  function ReadFull(job: Job, buf: Bytes, e: Option<Err>): Option<Option<Err>> {
    if |buf| >= job.buffer then Some(None)
    else if e == None then None
    else if buf != [] && e == Some(EOF) then Some(Some(UnexpectedEOF))
    else Some(e)
  }

  function SetPhase(s: State, p: Phase): Option<State> {
    Some(s.(phase := p))
  }

  function TakeDone(s: State): State
    requires s.done != [] && s.done[0] < |s.lanes| && s.phase.Collecting?
  {
    var i := s.done[0];
    s.(lanes := s.lanes[i := s.lanes[i].(pending := false)],
    done := s.done[1..],
    phase := s.phase.(got := s.phase.got + 1))
  }

  function DispatcherStep(job: Job, s: State, a: Action): Option<State> {
    var n := |s.lanes|;
    match s.phase
    case Filling(buf) =>
      if a.SourcePanic? then SetPhase(s, Stopping(Some(Fault)))
      else if a.SourceRead? && |buf| < job.buffer && |a.bytes| <= job.buffer - |buf| then
        var seen := s.seen + a.bytes;
        var filled := buf + a.bytes;
        var s1 := s.(seen := seen);
        match ReadFull(job, filled, Verdict(job.hash, job.key, job.cap, seen, a.e))
        case None => SetPhase(s1, Filling(filled))
        case Some(rerr) =>
          SetPhase(s1, if filled != [] then Dispatching(filled, 0, 0, rerr) else AfterChunk(rerr))
      else None
    case Dispatching(chunk, next, dispatched, rerr) =>
      if a.Dispatch? && next < n then
        if s.lanes[next].dead then SetPhase(s, Dispatching(chunk, next + 1, dispatched, rerr))
        else if s.lanes[next].pump.Parked? then
          Some(s.(lanes := s.lanes[next := s.lanes[next].(pending := true, pump := Writing(chunk))],
               phase := Dispatching(chunk, next + 1, dispatched + 1, rerr)))
        else None
      else if a.DispatchEnd? && next >= n then SetPhase(s, Collecting(chunk, 0, dispatched, Waiting, rerr))
      else None
    case Collecting(chunk, got, dispatched, stage, rerr) =>
      CollectStep(job, s, a)
    case Stopping(err) =>
      if a.StopPumps? && (forall i :: 0 <= i < n ==> s.lanes[i].pump.Parked?) then
        Some(s.(lanes := seq(n, i requires 0 <= i < n => s.lanes[i].(pump := Exited)), phase := Shutting(err, 0)))
      else None
    case Shutting(err, next) =>
      if a.ShutWriter? && next < n then
        Some(s.(lanes := s.lanes[next := s.lanes[next].(write := Shut(err))], phase := Shutting(err, next + 1)))
      else if a.ShutEnd? && next >= n then SetPhase(s, Joining(err))
      else None
    case Joining(err) =>
      if a.Return? && (forall i :: 0 <= i < n ==> s.lanes[i].result.Returned? && s.lanes[i].readerShut) then
        SetPhase(s, Done(err, s.ctx))
      else None
    case Done(_, _) => None
  }

  /** `collect`, and the check of `Write` that follows it. */
  function CollectStep(job: Job, s: State, a: Action): Option<State>
    requires s.phase.Collecting?
  {
    var Collecting(chunk, got, dispatched, stage, rerr) := s.phase;
    var n := |s.lanes|;
    match a
    case Receive =>
      if s.done != [] && s.done[0] < n && (stage.Draining? || ((stage.Waiting? || stage.Ticked?) && got < dispatched))
      then Some(TakeDone(s)) else None
    case Tick =>
      if stage.Waiting? && job.stalls && got < dispatched then SetPhase(s, s.phase.(stage := Draining)) else None
    case DrainEnd =>
      if stage.Draining? && s.done == [] then SetPhase(s, s.phase.(stage := Dropping(0))) else None
    case Drop =>
      if stage.Dropping? && stage.next < n then
        var l := s.lanes[stage.next];
        var l1 := if l.pending then l.(readerShut := true, cancelled := true) else l;
        Some(s.(lanes := s.lanes[stage.next := l1], phase := s.phase.(stage := Dropping(stage.next + 1))))
      else None
    case DropEnd =>
      if stage.Dropping? && stage.next >= n then SetPhase(s, s.phase.(stage := Ticked)) else None
    case Join =>
      if (stage.Waiting? || stage.Ticked?) && got >= dispatched then
        if exists i :: 0 <= i < n && !s.lanes[i].dead then
          Some(s.(sent := s.sent + chunk, phase := AfterChunk(rerr)))
        else SetPhase(s, Stopping(Some(ClosedPipe)))
      else None
    case _ => None
  }

  /** A step of one target's pump, pipe reader, sink or supervising goroutine. */
  function LaneStep(job: Job, codec: Codec, ctx: Option<Err>, l: Lane, a: LaneAct): Option<Lane> {
    match a
    case PipeRead(n) =>
      if l.pump.Writing? && !l.readerShut && n <= |l.pump.rest| then
        Some(l.(received := l.received + l.pump.rest[..n], pump := Writing(l.pump.rest[n..])))
      else None
    case WriteDone => if l.pump == Writing([]) then Some(l.(pump := Signalling)) else None
    case WriteFail =>
      if l.pump.Writing? && l.pump.rest != [] && l.readerShut then Some(l.(pump := Signalling, dead := true)) else None
    case ReadEOF =>
      if !l.readerShut && l.write == Shut(None) then Some(l.(pipeEOF := true)) else None
    case SinkEOF => if l.pipeEOF && l.store.Running? then Some(l.(sinkEOF := true)) else None
    case SinkCommit =>
      if l.store.Running? then
        Some(l.(commit := if l.sinkEOF then Full(Encode(job.compress, codec, l.received)) else Partial))
      else None
    case StoreReturn(ok) =>
      // a nil error from Store means that the bytes it read are durably committed
      if l.store.Running? && (ok ==> if l.sinkEOF then l.commit.Full? else l.commit.Partial?) then
        Some(l.(store := Returned(ok, l.sinkEOF)))
      else None
    case Collect => if l.result.Running? && l.store.Returned? then Some(l.(result := l.store)) else None
    case Abandon =>
      if l.result.Running? && (l.cancelled || ctx.Some?) then Some(l.(result := Returned(false, false))) else None
    case ShutReader => if l.result.Returned? then Some(l.(readerShut := true, cancelled := true)) else None
  }

  function Step(job: Job, s: State, a: Action): Option<State> {
    match a
    case CtxEnd(cause) => if s.ctx == None && !s.phase.Done? then Some(s.(ctx := Some(cause))) else None
    case Signal(i) =>
      // a send on the done channel blocks while its buffer, one slot per target, is full
      if i < |s.lanes| && s.lanes[i].pump.Signalling? && |s.done| < |s.lanes| then
        Some(s.(lanes := s.lanes[i := s.lanes[i].(pump := Parked)], done := s.done + [i]))
      else None
    case OnLane(i, act) =>
      if i < |s.lanes| && i < |job.codecs| then
        match LaneStep(job, job.codecs[i], s.ctx, s.lanes[i], act)
        case None => None
        case Some(l) => Some(s.(lanes := s.lanes[i := l]))
      else None
    case _ => DispatcherStep(job, s, a)
  }

  /** Running a whole interleaving; None when some action was not enabled. */
  function Exec(job: Job, s: State, run: seq<Action>): Option<State>
    decreases |run|
  {
    if run == [] then Some(s) else
    match Step(job, s, run[0])
    case None => None
    case Some(s1) => Exec(job, s1, run[1..])
  }

  ghost predicate Reachable(job: Job, s: State) {
    job.buffer > 0 && exists run :: Exec(job, Init(job), run) == Some(s)
  }

  /** The verdict of `fanOut` on lane `i`: a success that never read to EOF is a failure. */
  predicate Stored(s: State, i: nat)
    requires i < |s.lanes|
  {
    s.lanes[i].result.Returned? && s.lanes[i].result.ok && s.lanes[i].result.eof
  }

  /** The verified size `fanOut` returns, None standing for -1. */
  function VerifiedSize(s: State): Option<nat>
    requires s.phase.Done?
  {
    if s.phase.err == None then Some(|s.seen|) else None
  }

  /** The error `fanOut` returns: an ended context first, then a genuine source error.
  With a live context a closed pipe means that every target died, which is no error. */
  function SourceError(s: State): Option<Err>
    requires s.phase.Done?
  {
    if s.phase.ended != None then s.phase.ended
    else if s.phase.err == Some(ClosedPipe) then None
    else s.phase.err
  }
}
