/** The fan-out cannot hang. Once its context has ended, and the source's reads fail as those
of a cancelled stream do, something of the fan-out's own can always move until it returns, and
only boundedly many such moves are left, whatever the sinks do or refuse to do. */
module FanoutTermination {
  import opened Content
  import opened Fanout
  import opened FanoutSafety

  /** The moves that need no target's good will: the dispatcher, the pumps and the supervising
  goroutines, and the return of a pending source read. */
  predicate Moves(s: State, a: Action) {
    match a
    case Tick => false
    case CtxEnd(_) => false
    case OnLane(i, act) =>
      act.WriteDone? || act.WriteFail? || act.Collect? || act.Abandon? || (act.ShutReader? && i < |s.lanes| && !s.lanes[i].readerShut)
    case _ => true
  }

  /** What the source does once the context has ended: a read returns no bytes and an error. */
  predicate SourceGivesUp(a: Action) {
    a.SourceRead? ==> a.bytes == [] && a.e.Some?
  }

  // ---- the measure ---------------------------------------------------------------------

  /** What a lane's supervisor has left to do: report a result, and shut the reader. */
  function LaneLeft(l: Lane): nat {
    Bit(l.result.Running?) + Bit(!l.readerShut)
  }

  function LanesLeft(lanes: seq<Lane>): nat {
    if lanes == [] then 0 else LaneLeft(lanes[0]) + LanesLeft(lanes[1..])
  }

  lemma {:induction false} LeftUpdate(lanes: seq<Lane>, i: nat, l: Lane)
    requires i < |lanes|
    ensures LanesLeft(lanes[i := l]) + LaneLeft(lanes[i]) == LanesLeft(lanes) + LaneLeft(l)
  {
    if i == 0 {
      assert lanes[i := l][1..] == lanes[1..];
    } else {
      assert lanes[i := l][1..] == lanes[1..][i - 1 := l];
      LeftUpdate(lanes[1..], i - 1, l);
    }
  }

  /** From Stopping to Done. */
  function ClosingLeft(n: nat): nat { n + 3 }

  /** From handing out a first chunk to the end of its collect. */
  function RoundLeft(n: nat): nat { 4 * n + StageWork(Waiting, n) + 2 }

  /** What follows the current chunk: with an error in hand only the closing, else one more
  read, which fails, and perhaps the round of what it had buffered. */
  function AfterRound(rerr: Option<Err>, n: nat): nat {
    if rerr.Some? then ClosingLeft(n) else 1 + RoundLeft(n) + ClosingLeft(n)
  }

  function PhaseLeft(p: Phase, n: nat): nat {
    match p
    case Filling(_) => 1 + RoundLeft(n) + ClosingLeft(n)
    case Dispatching(_, next, _, rerr) => (if next <= n then 4 * (n - next) else 0) + StageWork(Waiting, n) + 2 + AfterRound(rerr, n)
    case Collecting(_, _, _, stage, rerr) => StageWork(stage, n) + 1 + AfterRound(rerr, n)
    case Stopping(_) => ClosingLeft(n)
    case Shutting(_, next) => (if next <= n then n - next else 0) + 2
    case Joining(_) => 1
    case Done(_, _) => 0
  }

  /** An upper bound on the moves still to come. */
  function Left(s: State): nat {
    PhaseLeft(s.phase, |s.lanes|) + Work(s.lanes) + LanesLeft(s.lanes)
  }

  // ---- every step, and every move ----------------------------------------------------------

  lemma {:induction false} SameLanes(a: seq<Lane>, b: seq<Lane>)
    requires |a| == |b|
    requires forall i :: 0 <= i < |a| ==> LaneWork(a[i]) == LaneWork(b[i]) && LaneLeft(a[i]) == LaneLeft(b[i])
    ensures Work(a) == Work(b) && LanesLeft(a) == LanesLeft(b)
  {
    if a != [] {
      SameLanes(a[1..], b[1..]);
    }
  }

  /** Replacing one lane. */
  lemma OneLane(lanes: seq<Lane>, i: nat, l: Lane)
    requires i < |lanes|
    ensures Work(lanes[i := l]) + LaneWork(lanes[i]) == Work(lanes) + LaneWork(l)
    ensures LanesLeft(lanes[i := l]) + LaneLeft(lanes[i]) == LanesLeft(lanes) + LaneLeft(l)
  {
    WorkUpdate(lanes, i, l);
    LeftUpdate(lanes, i, l);
  }

  lemma SourceLowers(job: Job, s: State, a: Action)
    requires Inv(job, s) && s.phase.Filling? && DispatcherStep(job, s, a).Some? && SourceGivesUp(a)
    ensures Left(DispatcherStep(job, s, a).value) < Left(s)
  {
    hide Work, LanesLeft, LanePhaseOK, LaneDataOK;
  }

  lemma DispatchLowers(job: Job, s: State, a: Action)
    requires Inv(job, s) && s.phase.Dispatching? && DispatcherStep(job, s, a).Some?
    ensures Left(DispatcherStep(job, s, a).value) < Left(s)
  {
    hide Work, LanesLeft, LanePhaseOK, LaneDataOK;
    var s1 := DispatcherStep(job, s, a).value;
    if a.Dispatch? {
      OneLane(s.lanes, s.phase.next, s1.lanes[s.phase.next]);
      if s1.lanes == s.lanes[s.phase.next := s.lanes[s.phase.next]] {
        assert s1.lanes == s.lanes;
      }
    }
  }

  lemma CollectLowers(job: Job, s: State, a: Action)
    requires Inv(job, s) && s.phase.Collecting? && CollectStep(job, s, a).Some?
    ensures Left(CollectStep(job, s, a).value) < Left(s)
  {
    hide Work, LanesLeft, LanePhaseOK;
    var s1 := CollectStep(job, s, a).value;
    match a
    case Receive =>
      var i := s.done[0];
      assert i in s.done && LaneDataOK(job, s, i, s.lanes[i]);
      OneLane(s.lanes, i, s1.lanes[i]);
    case Drop =>
      OneLane(s.lanes, s.phase.stage.next, s1.lanes[s.phase.stage.next]);
    case _ =>
  }

  lemma CloseLowers(job: Job, s: State, a: Action)
    requires Inv(job, s) && (s.phase.Stopping? || s.phase.Shutting? || s.phase.Joining? || s.phase.Done?)
    requires DispatcherStep(job, s, a).Some?
    ensures Left(DispatcherStep(job, s, a).value) < Left(s)
  {
    hide Work, LanesLeft, LanePhaseOK, LaneDataOK;
    var s1 := DispatcherStep(job, s, a).value;
    if s.phase.Stopping? {
      NothingPending(job, s);
      SameLanes(s1.lanes, s.lanes);
    } else if s.phase.Shutting? && a.ShutWriter? {
      OneLane(s.lanes, s.phase.next, s1.lanes[s.phase.next]);
    }
  }

  lemma NothingPending(job: Job, s: State)
    requires Inv(job, s) && s.phase.Stopping?
    ensures forall i :: 0 <= i < |s.lanes| ==> !s.lanes[i].pending
  {
    hide PhaseOK, LaneDataOK, Distinct;
    forall i | 0 <= i < |s.lanes| ensures !s.lanes[i].pending {
      assert LanePhaseOK(s, i, s.lanes[i]);
    }
  }

  /** A lane's own step: never more work, and less for a move. */
  lemma LaneLowers(job: Job, s: State, i: nat, act: LaneAct, l: Lane, l1: Lane)
    requires i < |job.codecs| && LaneStep(job, job.codecs[i], s.ctx, l, act) == Some(l1) && LanePhaseOK(s, i, l)
    ensures LaneWork(l1) + LaneLeft(l1) <= LaneWork(l) + LaneLeft(l)
    ensures (act.WriteDone? || act.WriteFail?) ==> LaneWork(l1) + LaneLeft(l1) < LaneWork(l) + LaneLeft(l)
    ensures (act.Collect? || act.Abandon? || (act.ShutReader? && !l.readerShut)) ==>
              LaneWork(l1) + LaneLeft(l1) < LaneWork(l) + LaneLeft(l)
  {
    hide Encode;
    if act.WriteDone? || act.WriteFail? {
      assert l.pending && l1 == l.(pump := Signalling, dead := l1.dead);
    } else if act.PipeRead? {
      assert l1.pump.Writing?;
    } else if act.ReadEOF? {
      assert l1 == l.(pipeEOF := true);
    } else {
      hide LanePhaseOK;
      OtherFields(job, job.codecs[i], s.ctx, l, act, l1);
    }
  }

  lemma OnLaneLowers(job: Job, s: State, i: nat, act: LaneAct)
    requires Inv(job, s) && Step(job, s, OnLane(i, act)).Some?
    ensures var s1 := Step(job, s, OnLane(i, act)).value;
            Left(s1) <= Left(s) && (Moves(s, OnLane(i, act)) ==> Left(s1) < Left(s))
  {
    hide Work, LanesLeft, LanePhaseOK, LaneDataOK, LaneStep, PhaseLeft, LaneWork, LaneLeft;
    var s1 := Step(job, s, OnLane(i, act)).value;
    assert LanePhaseOK(s, i, s.lanes[i]);
    LaneLowers(job, s, i, act, s.lanes[i], s1.lanes[i]);
    OneLane(s.lanes, i, s1.lanes[i]);
  }

  lemma SignalLowers(job: Job, s: State, i: nat)
    requires Inv(job, s) && Step(job, s, Signal(i)).Some?
    ensures Left(Step(job, s, Signal(i)).value) < Left(s)
  {
    hide Work, LanesLeft, LaneDataOK, PhaseLeft;
    var s1 := Step(job, s, Signal(i)).value;
    assert LanePhaseOK(s, i, s.lanes[i]);
    OneLane(s.lanes, i, s1.lanes[i]);
  }

  lemma DispatcherLowers(job: Job, s: State, a: Action)
    requires Inv(job, s) && DispatcherStep(job, s, a).Some? && SourceGivesUp(a)
    ensures Left(DispatcherStep(job, s, a).value) < Left(s)
  {
    hide Inv, Left, CollectStep, ReadFull, Verdict, AfterChunk;
    if s.phase.Filling? {
      SourceLowers(job, s, a);
    } else if s.phase.Dispatching? {
      DispatchLowers(job, s, a);
    } else if s.phase.Collecting? {
      CollectLowers(job, s, a);
    } else {
      CloseLowers(job, s, a);
    }
  }

  /** No step adds to what is left, and every move takes some of it. */
  lemma StepLowers(job: Job, s: State, a: Action)
    requires Inv(job, s) && Step(job, s, a).Some? && SourceGivesUp(a)
    ensures var s1 := Step(job, s, a).value;
            Left(s1) <= Left(s) && (Moves(s, a) ==> Left(s1) < Left(s))
  {
    match a
    case CtxEnd(_) =>
    case Signal(i) => SignalLowers(job, s, i);
    case OnLane(i, act) => OnLaneLowers(job, s, i, act);
    case _ =>
      hide Inv, DispatcherStep, Left;
      DispatcherLowers(job, s, a);
  }

  // ---- something can always move -------------------------------------------------------------

  /** A lane whose write has not ended can be moved on by its supervisor or its pump. */
  lemma WritingLaneMoves(job: Job, s: State, i: nat) returns (a: Action)
    requires i < |s.lanes| == |job.codecs| && s.ctx.Some? && s.lanes[i].pump.Writing?
    ensures Moves(s, a) && SourceGivesUp(a) && Step(job, s, a).Some?
  {
    hide Encode;
    var l := s.lanes[i];
    a := OnLane(i, if l.pump.rest == [] then WriteDone else if l.readerShut then WriteFail
                   else if l.result.Running? then Abandon else ShutReader);
  }

  lemma JoiningMoves(job: Job, s: State) returns (a: Action)
    requires |s.lanes| == |job.codecs| && s.ctx.Some? && s.phase.Joining?
    ensures Moves(s, a) && SourceGivesUp(a) && Step(job, s, a).Some?
  {
    hide Encode;
    if forall i :: 0 <= i < |s.lanes| ==> s.lanes[i].result.Returned? && s.lanes[i].readerShut {
      a := Return;
    } else {
      var i :| 0 <= i < |s.lanes| && !(s.lanes[i].result.Returned? && s.lanes[i].readerShut);
      a := OnLane(i, if s.lanes[i].result.Running? then Abandon else ShutReader);
    }
  }

  lemma CollectingMoves(job: Job, s: State) returns (a: Action)
    requires Inv(job, s) && s.ctx.Some? && s.phase.Collecting?
    ensures Moves(s, a) && SourceGivesUp(a) && Step(job, s, a).Some?
  {
    hide LanePhaseOK, LaneDataOK, LaneStep;
    var stage := s.phase.stage;
    if stage.Draining? {
      a := if s.done == [] then DrainEnd else Receive;
    } else if stage.Dropping? {
      a := if stage.next < |s.lanes| then Drop else DropEnd;
    } else if s.phase.got >= s.phase.dispatched {
      a := Join;
    } else if s.done != [] {
      a := Receive;
    } else {
      NonePending(s.lanes);
      var i :| 0 <= i < |s.lanes| && s.lanes[i].pending;
      PendingIsBusy(job, s, i);
      if s.lanes[i].pump.Writing? {
        a := WritingLaneMoves(job, s, i);
      } else {
        a := Signal(i);
      }
    }
  }

  lemma PendingIsBusy(job: Job, s: State, i: nat)
    requires Inv(job, s) && s.phase.Collecting? && i < |s.lanes| && s.lanes[i].pending && s.done == []
    ensures s.lanes[i].pump.Writing? || s.lanes[i].pump.Signalling?
  {
    hide LaneDataOK;
    assert LanePhaseOK(s, i, s.lanes[i]);
  }

  lemma PumpsParked(job: Job, s: State)
    requires Inv(job, s) && (s.phase.Stopping? || (s.phase.Dispatching? && s.phase.next < |s.lanes|))
    ensures s.phase.Stopping? ==> forall i :: 0 <= i < |s.lanes| ==> s.lanes[i].pump.Parked?
    ensures s.phase.Dispatching? ==> s.lanes[s.phase.next].pump.Parked?
  {
    hide LaneDataOK, PhaseOK;
    assert forall i :: 0 <= i < |s.lanes| ==> LanePhaseOK(s, i, s.lanes[i]);
  }

  /** Short of Done, a fan-out whose context has ended always has a move. */
  lemma SomethingMoves(job: Job, s: State) returns (a: Action)
    requires Inv(job, s) && s.ctx.Some? && !s.phase.Done?
    ensures Moves(s, a) && SourceGivesUp(a) && Step(job, s, a).Some?
  {
    hide LanePhaseOK, LaneDataOK, LaneStep, CollectStep, Verdict;
    match s.phase
    case Filling(_) => a := SourceRead([], Some(Canceled));
    case Dispatching(_, next, _, _) =>
      if next < |s.lanes| {
        PumpsParked(job, s);
        a := Dispatch;
      } else {
        a := DispatchEnd;
      }
    case Collecting(_, _, _, _, _) => a := CollectingMoves(job, s);
    case Stopping(_) =>
      PumpsParked(job, s);
      a := StopPumps;
    case Shutting(_, next) => a := if next < |s.lanes| then ShutWriter else ShutEnd;
    case Joining(_) => a := JoiningMoves(job, s);
  }

  // ---- every run -------------------------------------------------------------------------------

  /** How many of the steps of a run were moves. */
  function MovesIn(job: Job, s: State, run: seq<Action>): nat
    requires Exec(job, s, run).Some?
    decreases |run|
  {
    if run == [] then 0 else Bit(Moves(s, run[0])) + MovesIn(job, Step(job, s, run[0]).value, run[1..])
  }

  lemma ContextStaysEnded(job: Job, s: State, a: Action)
    requires s.ctx.Some? && Step(job, s, a).Some?
    ensures Step(job, s, a).value.ctx == s.ctx && |Step(job, s, a).value.lanes| == |s.lanes|
  {
  }

  lemma {:induction false} RunLowers(job: Job, s: State, run: seq<Action>)
    requires Inv(job, s) && s.ctx.Some? && Exec(job, s, run).Some?
    requires forall k :: 0 <= k < |run| ==> SourceGivesUp(run[k])
    ensures var t := Exec(job, s, run).value;
            Inv(job, t) && t.ctx.Some? && MovesIn(job, s, run) + Left(t) <= Left(s)
    decreases |run|
  {
    hide Inv, Left, Step, Moves, SourceGivesUp;
    if run != [] {
      StepKeeps(job, s, run[0]);
      StepLowers(job, s, run[0]);
      ContextStaysEnded(job, s, run[0]);
      RunLowers(job, Step(job, s, run[0]).value, run[1..]);
    }
  }

  lemma {:induction false} LanesBound(lanes: seq<Lane>)
    ensures Work(lanes) <= 3 * |lanes| && LanesLeft(lanes) <= 2 * |lanes|
  {
    if lanes != [] {
      LanesBound(lanes[1..]);
    }
  }

  /** A fan-out to n targets whose context has ended makes at most 16n + 14 more moves, in any
  interleaving, and as long as it has not returned it can make one: no sink, however it hangs,
  keeps it from returning. */
  lemma FanoutReturns(job: Job, s: State, run: seq<Action>)
    requires Reachable(job, s) && s.ctx.Some? && Exec(job, s, run).Some?
    requires forall k :: 0 <= k < |run| ==> SourceGivesUp(run[k])
    ensures MovesIn(job, s, run) <= 16 * |s.lanes| + 14
    ensures var t := Exec(job, s, run).value;
            t.phase.Done? || exists a :: Moves(t, a) && SourceGivesUp(a) && Step(job, t, a).Some?
  {
    hide Inv, Exec, Step, Moves, SourceGivesUp, Work, LanesLeft;
    ReachableInv(job, s);
    RunLowers(job, s, run);
    LanesBound(s.lanes);
    var t := Exec(job, s, run).value;
    if !t.phase.Done? {
      var a := SomethingMoves(job, t);
    }
  }

  // ---- a dropped target ------------------------------------------------------------------------

  /** A reader is never shut without its store being cancelled. */
  predicate DropsCancel(s: State) {
    forall i :: 0 <= i < |s.lanes| && s.lanes[i].readerShut ==> s.lanes[i].cancelled
  }

  lemma LaneCancels(job: Job, codec: Codec, ctx: Option<Err>, l: Lane, act: LaneAct)
    requires LaneStep(job, codec, ctx, l, act).Some? && (l.readerShut ==> l.cancelled)
    ensures var l1 := LaneStep(job, codec, ctx, l, act).value; l1.readerShut ==> l1.cancelled
  {
    hide Encode;
  }

  lemma DispatcherCancels(job: Job, s: State, a: Action)
    requires DropsCancel(s) && DispatcherStep(job, s, a).Some?
    ensures DropsCancel(DispatcherStep(job, s, a).value)
  {
    hide Verdict, ReadFull, AfterChunk;
  }

  lemma StepCancels(job: Job, s: State, a: Action)
    requires DropsCancel(s) && Step(job, s, a).Some?
    ensures DropsCancel(Step(job, s, a).value)
  {
    hide LaneStep, DispatcherStep;
    if a.OnLane? {
      LaneCancels(job, job.codecs[a.i], s.ctx, s.lanes[a.i], a.act);
    } else if !a.Signal? && !a.CtxEnd? {
      DispatcherCancels(job, s, a);
    }
  }

  lemma {:induction false} RunCancels(job: Job, s: State, run: seq<Action>)
    requires DropsCancel(s) && Exec(job, s, run).Some?
    ensures DropsCancel(Exec(job, s, run).value)
    decreases |run|
  {
    hide Step, DropsCancel;
    if run != [] {
      StepCancels(job, s, run[0]);
      RunCancels(job, Step(job, s, run[0]).value, run[1..]);
    }
  }

  /** A dropped target, whose reader is shut, never holds the fan-out up, even while the context
  is live and its sink hangs for ever in its own backend: its result can be given up at once,
  and then nothing is left to do for it. */
  lemma DroppedIsGivenUp(job: Job, s: State, i: nat)
    requires Reachable(job, s) && i < |s.lanes| && s.lanes[i].readerShut && s.lanes[i].result.Running?
    ensures i < |job.codecs| && Step(job, s, OnLane(i, Abandon)).Some?
    ensures var l := Step(job, s, OnLane(i, Abandon)).value.lanes[i]; l.result == Returned(false, false) && l.readerShut
  {
    hide Exec, Encode;
    ReachableInv(job, s);
    var run :| Exec(job, Init(job), run) == Some(s);
    RunCancels(job, Init(job), run);
  }
}
