/** What every interleaving of the fan-out keeps, and the theorems that follow. */
module FanoutSafety {
  import opened Content
  import opened Fanout

  // ---- counting ----------------------------------------------------------------

  function PendingCount(lanes: seq<Lane>): nat {
    if lanes == [] then 0 else Bit(lanes[0].pending) + PendingCount(lanes[1..])
  }

  lemma {:induction false} PendingUpdate(lanes: seq<Lane>, i: nat, l: Lane)
    requires i < |lanes|
    ensures PendingCount(lanes[i := l]) + Bit(lanes[i].pending) == PendingCount(lanes) + Bit(l.pending)
  {
    if i == 0 {
      assert lanes[i := l][1..] == lanes[1..];
    } else {
      assert lanes[i := l][1..] == lanes[1..][i - 1 := l];
      PendingUpdate(lanes[1..], i - 1, l);
    }
  }

  lemma {:induction false} NonePending(lanes: seq<Lane>)
    ensures PendingCount(lanes) == 0 <==> forall i :: 0 <= i < |lanes| ==> !lanes[i].pending
  {
    if lanes != [] {
      NonePending(lanes[1..]);
      if forall i :: 0 <= i < |lanes| ==> !lanes[i].pending {
        assert forall i :: 0 <= i < |lanes[1..]| ==> lanes[1..][i] == lanes[i + 1];
      } else {
        var i :| 0 <= i < |lanes| && lanes[i].pending;
        if i > 0 { assert lanes[1..][i - 1].pending; }
      }
    }
  }

  predicate Distinct(s: seq<nat>) {
    forall i, j :: 0 <= i < j < |s| ==> s[i] != s[j]
  }

  /** Distinct indexes below `n` number at most `n`. */
  lemma {:induction false} DistinctBound(s: seq<nat>, n: nat)
    requires Distinct(s) && forall k :: 0 <= k < |s| ==> s[k] < n
    ensures |s| <= n
  {
    if s == [] {
      return;
    }
    assert s[0] < n;
    if n - 1 in s {
      var k :| 0 <= k < |s| && s[k] == n - 1;
      DistinctBound(s[..k] + s[k + 1..], n - 1);
    } else {
      DistinctBound(s, n - 1);
    }
  }

  // ---- the invariant -----------------------------------------------------------

  /** A lane that has not been handed the current chunk. */
  predicate Idle(s: State, l: Lane) {
    && l.pump.Parked? && !l.pending && l.write == Open && !l.pipeEOF
    && (!l.dead ==> l.received == s.sent)
  }

  /** A lane whose pump was handed `chunk`, or that was already dead. */
  predicate Handed(s: State, i: nat, l: Lane, chunk: Bytes) {
    && l.write == Open && !l.pipeEOF && !l.pump.Exited?
    && (l.pending <==> l.pump.Writing? || l.pump.Signalling? || i in s.done)
    && (l.pump.Writing? ==> !l.dead && l.received + l.pump.rest == s.sent + chunk)
    && (!l.pump.Writing? && !l.dead ==> l.received == s.sent + chunk)
  }

  /** Once the stall tick fired, a dropped lane's write can only fail. */
  predicate DroppedOK(stage: Stage, i: nat, l: Lane) {
    (stage.Ticked? || (stage.Dropping? && i < stage.next)) && l.pump.Writing? ==> l.readerShut
  }

  /** A lane after the copy ended with `err`. */
  predicate Stopped(s: State, l: Lane, err: Option<Err>) {
    !l.pending && (err == None && !l.dead ==> l.received == s.seen)
  }

  predicate LanePhaseOK(s: State, i: nat, l: Lane) {
    match s.phase
    case Filling(_) => Idle(s, l)
    case Dispatching(chunk, next, _, _) => if i < next then Handed(s, i, l, chunk) else Idle(s, l)
    case Collecting(chunk, _, _, stage, _) => Handed(s, i, l, chunk) && DroppedOK(stage, i, l)
    case Stopping(err) => l.pump.Parked? && l.write == Open && !l.pipeEOF && Stopped(s, l, err)
    case Shutting(err, next) =>
      l.pump.Exited? && l.write == (if i < next then Shut(err) else Open) && Stopped(s, l, err)
    case Joining(err) => l.pump.Exited? && l.write == Shut(err) && Stopped(s, l, err)
    case Done(err, _) => l.pump.Exited? && l.write == Shut(err) && Stopped(s, l, err)
  }

  /** EOF travels from the pipe to the sink to the result, and each hop keeps the bytes. */
  predicate LaneDataOK(job: Job, s: State, i: nat, l: Lane)
    requires i < |job.codecs|
  {
    && (l.dead ==> l.readerShut)
    && l.received <= s.seen
    && (i in s.done ==> l.pump.Parked? && l.pending)
    && (l.pipeEOF ==> l.write == Shut(None) && l.received == s.seen)
    && (l.sinkEOF ==> l.pipeEOF)
    && (l.commit.Full? ==> l.sinkEOF && l.commit.bytes == Encode(job.compress, job.codecs[i], s.seen))
    && (l.store.Returned? && l.store.eof ==> l.sinkEOF && (l.store.ok ==> l.commit.Full?))
    && (l.result.Returned? && l.result.eof ==> l.sinkEOF && (l.result.ok ==> l.commit.Full?))
  }

  predicate PhaseOK(job: Job, s: State) {
    match s.phase
    case Filling(buf) => |buf| < job.buffer && s.seen == s.sent + buf
    case Dispatching(chunk, next, dispatched, rerr) =>
      && next <= |s.lanes| && s.seen == s.sent + chunk && PendingCount(s.lanes) == dispatched
      && chunk != [] && (EndOfStream(rerr) ==> Verified(job.hash, job.key, job.cap, s.seen))
    case Collecting(chunk, got, dispatched, stage, rerr) =>
      && s.seen == s.sent + chunk && PendingCount(s.lanes) + got == dispatched
      && chunk != [] && (EndOfStream(rerr) ==> Verified(job.hash, job.key, job.cap, s.seen))
      && (stage.Dropping? ==> stage.next <= |s.lanes|)
    case Stopping(err) => err == None ==> Verified(job.hash, job.key, job.cap, s.seen)
    case Shutting(err, next) => next <= |s.lanes| && (err == None ==> Verified(job.hash, job.key, job.cap, s.seen))
    case Joining(err) => err == None ==> Verified(job.hash, job.key, job.cap, s.seen)
    case Done(err, _) => err == None ==> Verified(job.hash, job.key, job.cap, s.seen)
  }

  predicate Inv(job: Job, s: State) {
    && job.buffer > 0 && |s.lanes| == |job.codecs|
    && PhaseOK(job, s)
    && Distinct(s.done) && (forall k :: 0 <= k < |s.done| ==> s.done[k] < |s.lanes|)
    && (forall i :: 0 <= i < |s.lanes| ==> LanePhaseOK(s, i, s.lanes[i]) && LaneDataOK(job, s, i, s.lanes[i]))
  }

  // ---- every step keeps it -----------------------------------------------------

  lemma {:induction false} InitInv(job: Job)
    requires job.buffer > 0
    ensures Inv(job, Init(job))
  {
  }

  predicate LaneOK(job: Job, s: State, i: nat, l: Lane)
    requires i < |job.codecs|
  {
    LanePhaseOK(s, i, l) && LaneDataOK(job, s, i, l)
  }

  /** The invariant from its header and its lanes. */
  lemma LanesDecide(job: Job, s: State)
    requires job.buffer > 0 && |s.lanes| == |job.codecs| && PhaseOK(job, s)
    requires Distinct(s.done) && forall k :: 0 <= k < |s.done| ==> s.done[k] < |s.lanes|
    requires forall i :: 0 <= i < |s.lanes| ==> LaneOK(job, s, i, s.lanes[i])
    ensures Inv(job, s)
  {
    hide PhaseOK, LanePhaseOK, LaneDataOK;
  }

  lemma LaneOf(job: Job, s: State, i: nat)
    requires Inv(job, s) && i < |s.lanes|
    ensures LaneOK(job, s, i, s.lanes[i])
  {
    hide PhaseOK, LanePhaseOK, LaneDataOK;
  }

  /** A source read, or a panic in it, seen from one lane: nothing was handed out yet. */
  lemma SourceLane(job: Job, s: State, s1: State, i: nat)
    requires i < |s.lanes| == |job.codecs| && LaneOK(job, s, i, s.lanes[i]) && s.phase.Filling? && s1.lanes == s.lanes && s1.done == s.done
    requires s1.sent == s.sent && s.seen <= s1.seen && s.seen == s.sent + s.phase.buf
    requires s1.phase.Filling? || (s1.phase.Dispatching? && s1.phase.next == 0) ||
             (s1.phase.Stopping? && (s1.phase.err == None ==> s1.seen == s.sent))
    ensures LaneOK(job, s1, i, s1.lanes[i])
  {
  }

  lemma SourceStepKeeps(job: Job, s: State, a: Action)
    requires Inv(job, s) && s.phase.Filling? && DispatcherStep(job, s, a).Some?
    ensures Inv(job, DispatcherStep(job, s, a).value)
  {
    var s1 := DispatcherStep(job, s, a).value;
    assert PhaseOK(job, s1) && s.seen <= s1.seen by {
      hide LanePhaseOK, LaneDataOK, Distinct;
      NonePendingYet(job, s);
    }
    hide LanePhaseOK, LaneDataOK, Inv, Distinct, Verified;
    InvHeader(job, s);
    forall i | 0 <= i < |s1.lanes| ensures LaneOK(job, s1, i, s1.lanes[i]) {
      LaneOf(job, s, i);
      SourceLane(job, s, s1, i);
    }
    LanesDecide(job, s1);
  }

  lemma InvHeader(job: Job, s: State)
    requires Inv(job, s)
    ensures job.buffer > 0 && |s.lanes| == |job.codecs| && PhaseOK(job, s)
    ensures Distinct(s.done) && forall k :: 0 <= k < |s.done| ==> s.done[k] < |s.lanes|
  {
    hide PhaseOK, LanePhaseOK, LaneDataOK, Distinct;
  }

  lemma NonePendingYet(job: Job, s: State)
    requires Inv(job, s) && s.phase.Filling?
    ensures PendingCount(s.lanes) == 0
  {
    hide PhaseOK, LaneDataOK, Distinct;
    NonePending(s.lanes);
  }

  /** One turn of the dispatch loop, seen from one lane. */
  lemma DispatchLane(job: Job, s: State, s1: State, i: nat)
    requires i < |s.lanes| == |s1.lanes| == |job.codecs| && LaneOK(job, s, i, s.lanes[i])
    requires s.phase.Dispatching? && s1.seen == s.seen && s1.sent == s.sent && s1.done == s.done && s.phase.next < |s.lanes|
    requires s1.phase.Dispatching? && s1.phase.next == s.phase.next + 1 && s1.phase.chunk == s.phase.chunk
    requires var l := s.lanes[i];
             s1.lanes[i] == if i == s.phase.next && !l.dead then l.(pending := true, pump := Writing(s.phase.chunk)) else l
    ensures LaneOK(job, s1, i, s1.lanes[i])
  {
  }

  lemma DispatchEndLane(job: Job, s: State, s1: State, i: nat)
    requires i < |s.lanes| == |s1.lanes| == |job.codecs| && LaneOK(job, s, i, s.lanes[i]) && s1.lanes == s.lanes
    requires s.phase.Dispatching? && s1.seen == s.seen && s1.sent == s.sent && s1.done == s.done && s.phase.next >= |s.lanes|
    requires s1.phase.Collecting? && s1.phase.chunk == s.phase.chunk && s1.phase.stage.Waiting?
    ensures LaneOK(job, s1, i, s1.lanes[i])
  {
  }

  lemma DispatchStepKeeps(job: Job, s: State, a: Action)
    requires Inv(job, s) && s.phase.Dispatching? && DispatcherStep(job, s, a).Some?
    ensures Inv(job, DispatcherStep(job, s, a).value)
  {
    hide LanePhaseOK, LaneDataOK, Inv, Distinct, Verified, EndOfStream;
    var s1 := DispatcherStep(job, s, a).value;
    InvHeader(job, s);
    if a.Dispatch? {
      var next := s.phase.next;
      if !s.lanes[next].dead {
        DispatchedOnce(job, s, next);
        PendingUpdate(s.lanes, next, s1.lanes[next]);
      }
    }
    forall i | 0 <= i < |s1.lanes| ensures LaneOK(job, s1, i, s1.lanes[i]) {
      LaneOf(job, s, i);
      if a.Dispatch? {
        DispatchLane(job, s, s1, i);
      } else {
        DispatchEndLane(job, s, s1, i);
      }
    }
    LanesDecide(job, s1);
  }

  lemma DispatchedOnce(job: Job, s: State, i: nat)
    requires Inv(job, s) && s.phase.Dispatching? && s.phase.next == i < |s.lanes|
    ensures !s.lanes[i].pending
  {
    hide PhaseOK, LaneDataOK, Distinct;
    assert LanePhaseOK(s, i, s.lanes[i]);
  }

  lemma JoinKeeps(job: Job, s: State)
    requires Inv(job, s) && s.phase.Collecting? && CollectStep(job, s, Join).Some?
    ensures Inv(job, CollectStep(job, s, Join).value)
  {
    var s1 := CollectStep(job, s, Join).value;
    NonePending(s.lanes);
    forall i | 0 <= i < |s.lanes|
      ensures LanePhaseOK(s1, i, s1.lanes[i]) && LaneDataOK(job, s1, i, s1.lanes[i])
    {
      assert LanePhaseOK(s, i, s.lanes[i]) && LaneDataOK(job, s, i, s.lanes[i]);
    }
  }

  lemma DropKeeps(job: Job, s: State)
    requires Inv(job, s) && s.phase.Collecting? && CollectStep(job, s, Drop).Some?
    ensures Inv(job, CollectStep(job, s, Drop).value)
  {
    var s1 := CollectStep(job, s, Drop).value;
    PendingUpdate(s.lanes, s.phase.stage.next, s1.lanes[s.phase.stage.next]);
    forall i | 0 <= i < |s.lanes|
      ensures LanePhaseOK(s1, i, s1.lanes[i]) && LaneDataOK(job, s1, i, s1.lanes[i])
    {
      assert LanePhaseOK(s, i, s.lanes[i]) && LaneDataOK(job, s, i, s.lanes[i]);
    }
  }

  lemma CollectStepKeeps(job: Job, s: State, a: Action)
    requires Inv(job, s) && s.phase.Collecting? && CollectStep(job, s, a).Some?
    ensures Inv(job, CollectStep(job, s, a).value)
  {
    match a
    case Receive => ReceiveKeeps(job, s);
    case Drop => DropKeeps(job, s);
    case Join => JoinKeeps(job, s);
    case _ =>
  }

  lemma ReceiveKeeps(job: Job, s: State)
    requires Inv(job, s) && s.phase.Collecting? && s.done != []
    ensures Inv(job, TakeDone(s))
  {
    var i := s.done[0];
    var s1 := TakeDone(s);
    PendingUpdate(s.lanes, i, s1.lanes[i]);
    assert i in s.done;
    assert forall k :: 0 <= k < |s1.done| ==> s1.done[k] == s.done[k + 1];
    assert forall j :: j in s.done <==> j == i || j in s1.done;
    assert i !in s1.done;
  }

  lemma EndStepKeeps(job: Job, s: State, a: Action)
    requires Inv(job, s) && (s.phase.Stopping? || s.phase.Shutting? || s.phase.Joining? || s.phase.Done?)
    requires DispatcherStep(job, s, a).Some?
    ensures Inv(job, DispatcherStep(job, s, a).value)
  {
  }

  /** A pump's signal, seen from one lane. */
  lemma SignalLane(job: Job, s: State, s1: State, i: nat, j: nat)
    requires j < |s.lanes| == |s1.lanes| == |job.codecs| && i < |s.lanes|
    requires LaneOK(job, s, j, s.lanes[j]) && LaneOK(job, s, i, s.lanes[i]) && s.lanes[i].pump.Signalling?
    requires s1 == s.(lanes := s.lanes[i := s.lanes[i].(pump := Parked)], done := s.done + [i])
    ensures LaneOK(job, s1, j, s1.lanes[j])
  {
    assert j in s1.done <==> j == i || j in s.done;
  }

  lemma SignalKeeps(job: Job, s: State, i: nat)
    requires Inv(job, s) && Step(job, s, Signal(i)).Some?
    ensures Inv(job, Step(job, s, Signal(i)).value)
  {
    hide LanePhaseOK, LaneDataOK, Inv, Verified, EndOfStream;
    var s1 := Step(job, s, Signal(i)).value;
    InvHeader(job, s);
    LaneOf(job, s, i);
    PendingUpdate(s.lanes, i, s1.lanes[i]);
    assert i !in s.done by { NotSignalled(job, s, i); }
    forall j | 0 <= j < |s1.lanes| ensures LaneOK(job, s1, j, s1.lanes[j]) {
      LaneOf(job, s, j);
      SignalLane(job, s, s1, i, j);
    }
    LanesDecide(job, s1);
  }

  lemma NotSignalled(job: Job, s: State, i: nat)
    requires i < |s.lanes| == |job.codecs| && LaneOK(job, s, i, s.lanes[i]) && s.lanes[i].pump.Signalling?
    ensures i !in s.done
  {
    hide LanePhaseOK;
  }

  /** What a lane's part in the protocol depends on: a reader may be shut at any time, the
  rest of these fields must not move. */
  lemma SamePart(s: State, i: nat, l: Lane, l1: Lane)
    requires LanePhaseOK(s, i, l) && (l.readerShut ==> l1.readerShut)
    requires l1.pump == l.pump && l1.dead == l.dead && l1.pending == l.pending && l1.write == l.write
             && l1.received == l.received && l1.pipeEOF == l.pipeEOF
    ensures LanePhaseOK(s, i, l1)
  {
  }

  lemma PipeReadPhase(s: State, i: nat, l: Lane, n: nat)
    requires LanePhaseOK(s, i, l) && l.pump.Writing? && n <= |l.pump.rest|
    ensures LanePhaseOK(s, i, l.(received := l.received + l.pump.rest[..n], pump := Writing(l.pump.rest[n..])))
  {
    var l1 := l.(received := l.received + l.pump.rest[..n], pump := Writing(l.pump.rest[n..]));
    assert l1.received + l1.pump.rest == l.received + l.pump.rest;
  }

  lemma WriteEndPhase(s: State, i: nat, l: Lane, dead: bool)
    requires LanePhaseOK(s, i, l) && l.pump.Writing? && (!dead ==> l.pump.rest == []) && (dead ==> l.readerShut)
    ensures LanePhaseOK(s, i, l.(pump := Signalling, dead := l.dead || dead))
  {
    assert l.pump.rest == [] ==> l.received + l.pump.rest == l.received;
  }

  lemma ReadEOFPhase(s: State, i: nat, l: Lane)
    requires LanePhaseOK(s, i, l) && l.write == Shut(None)
    ensures LanePhaseOK(s, i, l.(pipeEOF := true))
  {
  }

  lemma LaneStepKeepsPhase(job: Job, s: State, i: nat, act: LaneAct, l: Lane, l1: Lane)
    requires i < |job.codecs| && LaneStep(job, job.codecs[i], s.ctx, l, act) == Some(l1)
    requires LanePhaseOK(s, i, l) && LaneDataOK(job, s, i, l)
    ensures LanePhaseOK(s, i, l1) && l1.pending == l.pending
  {
    hide LanePhaseOK, LaneDataOK, Encode;
    if act.PipeRead? {
      PipeReadPhase(s, i, l, act.n);
    } else if act.WriteDone? || act.WriteFail? {
      WriteEndPhase(s, i, l, act.WriteFail?);
    } else if act.ReadEOF? {
      ReadEOFPhase(s, i, l);
    } else {
      OtherFields(job, job.codecs[i], s.ctx, l, act, l1);
      SamePart(s, i, l, l1);
    }
  }

  lemma {:induction false} OtherFields(job: Job, codec: Codec, ctx: Option<Err>, l: Lane, act: LaneAct, l1: Lane)
    requires LaneStep(job, codec, ctx, l, act) == Some(l1)
    requires !act.PipeRead? && !act.WriteDone? && !act.WriteFail? && !act.ReadEOF?
    ensures l1.pump == l.pump && l1.dead == l.dead && l1.pending == l.pending && l1.write == l.write
            && l1.received == l.received && l1.pipeEOF == l.pipeEOF && (l.readerShut ==> l1.readerShut)
  {
    hide Encode;
    match act
    case SinkEOF => assert l1 == l.(sinkEOF := true);
    case SinkCommit => assert l1 == l.(commit := l1.commit);
    case StoreReturn(_) => assert l1 == l.(store := l1.store);
    case Collect => assert l1 == l.(result := l1.result);
    case Abandon => assert l1 == l.(result := l1.result);
    case ShutReader => assert l1 == l.(readerShut := true, cancelled := true);
  }

  lemma PipeReadData(job: Job, s: State, i: nat, l: Lane, n: nat)
    requires i < |job.codecs| && PhaseOK(job, s) && LanePhaseOK(s, i, l) && LaneDataOK(job, s, i, l)
    requires l.pump.Writing? && n <= |l.pump.rest|
    ensures LaneDataOK(job, s, i, l.(received := l.received + l.pump.rest[..n], pump := Writing(l.pump.rest[n..])))
  {
    hide Verified, EndOfStream, PendingCount, Encode;
    assert l.received + l.pump.rest == s.seen && !l.pipeEOF;
    assert l.received + l.pump.rest[..n] <= l.received + l.pump.rest;
  }

  lemma ReadEOFData(job: Job, s: State, i: nat, l: Lane)
    requires i < |job.codecs| && LanePhaseOK(s, i, l) && LaneDataOK(job, s, i, l) && !l.readerShut && l.write == Shut(None)
    ensures LaneDataOK(job, s, i, l.(pipeEOF := true))
  {
    hide Encode;
  }

  /** The other steps need nothing of the protocol around the lane. */
  lemma OtherData(job: Job, s: State, i: nat, act: LaneAct, l: Lane, l1: Lane)
    requires i < |job.codecs| && LaneStep(job, job.codecs[i], s.ctx, l, act) == Some(l1)
    requires LaneDataOK(job, s, i, l) && !act.PipeRead? && !act.ReadEOF?
    ensures LaneDataOK(job, s, i, l1)
  {
    hide Encode;
  }

  lemma LaneStepKeepsData(job: Job, s: State, i: nat, act: LaneAct, l: Lane, l1: Lane)
    requires i < |job.codecs| && LaneStep(job, job.codecs[i], s.ctx, l, act) == Some(l1)
    requires PhaseOK(job, s) && LanePhaseOK(s, i, l) && LaneDataOK(job, s, i, l)
    ensures LaneDataOK(job, s, i, l1)
  {
    hide LanePhaseOK, LaneDataOK, PhaseOK;
    match act
    case PipeRead(n) => PipeReadData(job, s, i, l, n);
    case ReadEOF => ReadEOFData(job, s, i, l);
    case _ => OtherData(job, s, i, act, l, l1);
  }

  lemma LaneStepKeeps(job: Job, s: State, i: nat, act: LaneAct)
    requires Inv(job, s) && Step(job, s, OnLane(i, act)).Some?
    ensures Inv(job, Step(job, s, OnLane(i, act)).value)
  {
    var s1 := Step(job, s, OnLane(i, act)).value;
    var l, l1 := s.lanes[i], s1.lanes[i];
    assert LanePhaseOK(s, i, l) && LaneDataOK(job, s, i, l);
    LaneStepKeepsPhase(job, s, i, act, l, l1);
    LaneStepKeepsData(job, s, i, act, l, l1);
    PendingUpdate(s.lanes, i, l1);
    OneLaneReplaced(job, s, i, l1);
  }

  lemma OneLaneReplaced(job: Job, s: State, i: nat, l1: Lane)
    requires Inv(job, s) && i < |s.lanes| && LanePhaseOK(s, i, l1) && LaneDataOK(job, s, i, l1)
    requires PendingCount(s.lanes[i := l1]) == PendingCount(s.lanes)
    ensures Inv(job, s.(lanes := s.lanes[i := l1]))
  {
    var s1 := s.(lanes := s.lanes[i := l1]);
    forall j | 0 <= j < |s1.lanes| ensures LanePhaseOK(s1, j, s1.lanes[j]) && LaneDataOK(job, s1, j, s1.lanes[j]) {
      assert LanePhaseOK(s, j, s1.lanes[j]) && LaneDataOK(job, s, j, s1.lanes[j]);
    }
  }

  lemma CtxKeeps(job: Job, s: State, a: Action)
    requires Inv(job, s) && a.CtxEnd? && Step(job, s, a).Some?
    ensures Inv(job, Step(job, s, a).value)
  {
  }

  lemma DispatcherStepKeeps(job: Job, s: State, a: Action)
    requires Inv(job, s) && DispatcherStep(job, s, a).Some?
    ensures Inv(job, DispatcherStep(job, s, a).value)
  {
    hide Inv, CollectStep, ReadFull, Verdict, AfterChunk;
    if s.phase.Filling? {
      SourceStepKeeps(job, s, a);
    } else if s.phase.Dispatching? {
      DispatchStepKeeps(job, s, a);
    } else if s.phase.Collecting? {
      CollectStepKeeps(job, s, a);
    } else {
      EndStepKeeps(job, s, a);
    }
  }

  lemma StepKeeps(job: Job, s: State, a: Action)
    requires Inv(job, s) && Step(job, s, a).Some?
    ensures Inv(job, Step(job, s, a).value)
  {
    hide Inv, DispatcherStep, LaneStep;
    match a
    case CtxEnd(_) => CtxKeeps(job, s, a);
    case Signal(i) => SignalKeeps(job, s, i);
    case OnLane(i, act) => LaneStepKeeps(job, s, i, act);
    case _ => DispatcherStepKeeps(job, s, a);
  }

  lemma {:induction false} RunKeeps(job: Job, s: State, run: seq<Action>)
    requires Inv(job, s) && Exec(job, s, run).Some?
    ensures Inv(job, Exec(job, s, run).value)
    decreases |run|
  {
    if run != [] {
      StepKeeps(job, s, run[0]);
      RunKeeps(job, Step(job, s, run[0]).value, run[1..]);
    }
  }

  lemma ReachableInv(job: Job, s: State)
    requires Reachable(job, s)
    ensures Inv(job, s)
  {
    var run :| Exec(job, Init(job), run) == Some(s);
    InitInv(job);
    RunKeeps(job, Init(job), run);
  }

  // ---- safety theorems ---------------------------------------------------------

  /** Verify-then-commit. In every interleaving a sink sees the end of its stream only if
  it was sent exactly the bytes that were hashed, they hash to the key and fit the cap;
  whatever is committed in full is the encoding of those bytes. */
  lemma VerifyThenCommit(job: Job, s: State, i: nat)
    requires Reachable(job, s) && i < |s.lanes|
    ensures i < |job.codecs|
    ensures s.lanes[i].sinkEOF ==> s.lanes[i].received == s.seen && Verified(job.hash, job.key, job.cap, s.seen)
    ensures s.lanes[i].commit.Full? ==>
              && Verified(job.hash, job.key, job.cap, s.seen)
              && s.lanes[i].commit.bytes == Encode(job.compress, job.codecs[i], s.seen)
  {
    ReachableInv(job, s);
    var l := s.lanes[i];
    assert LanePhaseOK(s, i, l) && LaneDataOK(job, s, i, l);
    if l.pipeEOF { assert l.write == Shut(None); }
  }

  /** A corrupt, truncated or over-cap source: while the bytes read are not the object,
  no target has seen EOF, none has a full commit, and none counts as stored. */
  lemma BadSourceCommitsNothing(job: Job, s: State, i: nat)
    requires Reachable(job, s) && i < |s.lanes|
    requires job.hash(s.seen) != job.key || !WithinCap(job.cap, |s.seen|)
    ensures !s.lanes[i].pipeEOF && !s.lanes[i].sinkEOF && !s.lanes[i].commit.Full? && !Stored(s, i)
  {
    ReachableInv(job, s);
    assert LanePhaseOK(s, i, s.lanes[i]) && LaneDataOK(job, s, i, s.lanes[i]);
  }

  /** What `fanOut` promises its caller: a target reported stored holds the encoding of a
  verified plaintext, and the reported size is that plaintext's length. A source error
  with a live context therefore comes with no stored target at all. */
  lemma StoredMeansCommitted(job: Job, s: State, i: nat)
    requires Reachable(job, s) && s.phase.Done? && i < |s.lanes| && Stored(s, i)
    ensures i < |job.codecs|
    ensures Verified(job.hash, job.key, job.cap, s.seen)
    ensures s.lanes[i].commit == Full(Encode(job.compress, job.codecs[i], s.seen))
    ensures VerifiedSize(s) == Some(|s.seen|)
    ensures s.phase.ended == None ==> SourceError(s) == None
  {
    ReachableInv(job, s);
    assert LanePhaseOK(s, i, s.lanes[i]) && LaneDataOK(job, s, i, s.lanes[i]);
  }

  /** The barrier. A pump that is about to signal finds room in the done channel, and the
  dispatcher only ever hands a chunk to a pump that finished its last one. */
  lemma BarrierNeverBlocks(job: Job, s: State)
    requires Reachable(job, s)
    ensures |s.done| <= |s.lanes|
    ensures forall i :: 0 <= i < |s.lanes| && s.lanes[i].pump.Signalling? ==> Step(job, s, Signal(i)).Some?
    ensures s.phase.Dispatching? && s.phase.next < |s.lanes| ==>
              s.lanes[s.phase.next].pump.Parked? && Step(job, s, Dispatch).Some?
    ensures s.phase.Stopping? ==> Step(job, s, StopPumps).Some?
  {
    ReachableInv(job, s);
    DistinctBound(s.done, |s.lanes|);
    forall i | 0 <= i < |s.lanes| && s.lanes[i].pump.Signalling? ensures |s.done| < |s.lanes| {
      assert i !in s.done;
      DistinctBound(s.done + [i], |s.lanes|);
    }
  }

  /** Isolation. Between chunks a target that is not dead has consumed exactly the source
  bytes delivered so far, whatever the other targets did. */
  lemma LiveTargetHasPrefix(job: Job, s: State, i: nat)
    requires Reachable(job, s) && i < |s.lanes| && !s.lanes[i].dead
    ensures s.phase.Filling? ==> s.lanes[i].received == s.sent && s.seen == s.sent + s.phase.buf
    ensures s.phase.Stopping? && s.phase.err == None ==> s.lanes[i].received == s.seen
    ensures s.lanes[i].received <= s.seen
  {
    ReachableInv(job, s);
    assert LanePhaseOK(s, i, s.lanes[i]) && LaneDataOK(job, s, i, s.lanes[i]);
  }

  function LaneExec(job: Job, codec: Codec, ctx: Option<Err>, l: Lane, acts: seq<LaneAct>): Option<Lane>
    decreases |acts|
  {
    if acts == [] then Some(l) else
    match LaneStep(job, codec, ctx, l, acts[0])
    case None => None
    case Some(l1) => LaneExec(job, codec, ctx, l1, acts[1..])
  }

  /** Steps of one target touch that target only. */
  lemma {:induction false} LaneIsolated(job: Job, s: State, i: nat, acts: seq<LaneAct>)
    requires i < |s.lanes| && i < |job.codecs|
    requires LaneExec(job, job.codecs[i], s.ctx, s.lanes[i], acts).Some?
    ensures Exec(job, s, seq(|acts|, k requires 0 <= k < |acts| => OnLane(i, acts[k])))
         == Some(s.(lanes := s.lanes[i := LaneExec(job, job.codecs[i], s.ctx, s.lanes[i], acts).value]))
    decreases |acts|
  {
    var run := seq(|acts|, k requires 0 <= k < |acts| => OnLane(i, acts[k]));
    if acts == [] {
      assert s.lanes[i := s.lanes[i]] == s.lanes;
    } else {
      var l1 := LaneStep(job, job.codecs[i], s.ctx, s.lanes[i], acts[0]).value;
      var s1 := s.(lanes := s.lanes[i := l1]);
      assert run[0] == OnLane(i, acts[0]) && Step(job, s, run[0]) == Some(s1);
      assert run[1..] == seq(|acts[1..]|, k requires 0 <= k < |acts[1..]| => OnLane(i, acts[1..][k]));
      LaneIsolated(job, s1, i, acts[1..]);
      var l2 := LaneExec(job, job.codecs[i], s.ctx, l1, acts[1..]).value;
      assert s1.lanes[i := l2] == s.lanes[i := l2];
    }
  }

  /** Once the copy succeeded, a target that was neither dropped nor closed can read its
  end of stream, commit, return and be stored, in any state the other targets are in. */
  lemma HealthyTargetStores(job: Job, s: State, i: nat) returns (run: seq<Action>)
    requires Reachable(job, s) && s.phase == Joining(None) && i < |s.lanes|
    requires !s.lanes[i].readerShut && s.lanes[i].store.Running? && s.lanes[i].result.Running?
    ensures i < |job.codecs| && Exec(job, s, run).Some?
    ensures var t := Exec(job, s, run).value;
            && |t.lanes| == |s.lanes| && Stored(t, i)
            && t.lanes[i].commit == Full(Encode(job.compress, job.codecs[i], s.seen))
            && (forall j :: 0 <= j < |s.lanes| && j != i ==> t.lanes[j] == s.lanes[j])
  {
    ReachableInv(job, s);
    assert LanePhaseOK(s, i, s.lanes[i]) && LaneDataOK(job, s, i, s.lanes[i]);
    var acts := [ReadEOF, SinkEOF, SinkCommit, StoreReturn(true), Collect];
    FinishLane(job, job.codecs[i], s.ctx, s.lanes[i], acts);
    LaneIsolated(job, s, i, acts);
    run := seq(|acts|, k requires 0 <= k < |acts| => OnLane(i, acts[k]));
  }

  lemma FinishLane(job: Job, codec: Codec, ctx: Option<Err>, l: Lane, acts: seq<LaneAct>)
    requires !l.readerShut && l.write == Shut(None) && l.store.Running? && l.result.Running?
    requires acts == [ReadEOF, SinkEOF, SinkCommit, StoreReturn(true), Collect]
    ensures var done := Full(Encode(job.compress, codec, l.received));
            LaneExec(job, codec, ctx, l, acts) == Some(l.(pipeEOF := true, sinkEOF := true, commit := done,
                     store := Returned(true, true), result := Returned(true, true)))
  {
    var l1 := l.(pipeEOF := true);
    var l2 := l1.(sinkEOF := true);
    var l3 := l2.(commit := Full(Encode(job.compress, codec, l.received)));
    var l4 := l3.(store := Returned(true, true));
    var l5 := l4.(result := Returned(true, true));
    assert acts[4..] == [Collect] && acts[4..][1..] == [];
    assert LaneExec(job, codec, ctx, l4, acts[4..]) == Some(l5);
    assert acts[3..][1..] == acts[4..] && LaneExec(job, codec, ctx, l3, acts[3..]) == Some(l5);
    assert acts[2..][1..] == acts[3..] && LaneExec(job, codec, ctx, l2, acts[2..]) == Some(l5);
    assert acts[1..][1..] == acts[2..] && LaneExec(job, codec, ctx, l1, acts[1..]) == Some(l5);
  }

  // ---- the stall tick ----------------------------------------------------------

  /** The steps still owed to the barrier by one lane. */
  function LaneWork(l: Lane): nat {
    if !l.pending then 0 else if l.pump.Writing? then 3 else if l.pump.Signalling? then 2 else 1
  }

  function Work(lanes: seq<Lane>): nat {
    if lanes == [] then 0 else LaneWork(lanes[0]) + Work(lanes[1..])
  }

  lemma {:induction false} WorkUpdate(lanes: seq<Lane>, i: nat, l: Lane)
    requires i < |lanes|
    ensures Work(lanes[i := l]) + LaneWork(lanes[i]) == Work(lanes) + LaneWork(l)
  {
    if i == 0 {
      assert lanes[i := l][1..] == lanes[1..];
    } else {
      assert lanes[i := l][1..] == lanes[1..][i - 1 := l];
      WorkUpdate(lanes[1..], i - 1, l);
    }
  }

  function StageWork(stage: Stage, n: nat): nat {
    match stage
    case Waiting => n + 3
    case Draining => n + 2
    case Dropping(next) => if next <= n then n - next + 1 else 1
    case Ticked => 0
  }

  /** An upper bound on the steps `collect` can still need after the tick. */
  function StallWork(s: State): nat
    requires s.phase.Collecting?
  {
    Work(s.lanes) + StageWork(s.phase.stage, |s.lanes|)
  }

  predicate AfterTick(s: State) {
    s.phase.Collecting? && !s.phase.stage.Waiting?
  }

  /** The actions of the dispatcher and of the pumps; the rest belongs to the targets. */
  predicate OwnStep(a: Action) {
    a.Receive? || a.DrainEnd? || a.Drop? || a.DropEnd? || a.Join? || a.Signal? ||
    (a.OnLane? && (a.act.WriteDone? || a.act.WriteFail?))
  }

  lemma StallDispatcherStep(job: Job, s: State, a: Action)
    requires Inv(job, s) && AfterTick(s) && CollectStep(job, s, a).Some? && !a.Join?
    ensures var t := CollectStep(job, s, a).value;
            AfterTick(t) && StallWork(t) < StallWork(s)
  {
    var t := CollectStep(job, s, a).value;
    match a
    case Receive =>
      var i := s.done[0];
      assert i in s.done && LaneDataOK(job, s, i, s.lanes[i]);
      WorkUpdate(s.lanes, i, t.lanes[i]);
    case Drop => WorkUpdate(s.lanes, s.phase.stage.next, t.lanes[s.phase.stage.next]);
    case _ =>
  }

  lemma StallLaneStep(job: Job, s: State, a: Action)
    requires Inv(job, s) && AfterTick(s) && Step(job, s, a).Some? && (a.Signal? || a.OnLane?)
    ensures var t := Step(job, s, a).value;
            AfterTick(t) && StallWork(t) <= StallWork(s) && (OwnStep(a) ==> StallWork(t) < StallWork(s))
  {
    var t := Step(job, s, a).value;
    var l, l1 := s.lanes[a.i], t.lanes[a.i];
    assert LanePhaseOK(s, a.i, l);
    WorkUpdate(s.lanes, a.i, l1);
    StallLane(s, a, l, l1);
  }

  lemma StallLane(s: State, a: Action, l: Lane, l1: Lane)
    requires a.Signal? || a.OnLane?
    requires s.phase.Collecting? && LanePhaseOK(s, a.i, l)
    requires a.Signal? ==> l.pump.Signalling? && l1 == l.(pump := Parked)
    requires a.OnLane? ==> exists job, codec :: LaneStep(job, codec, s.ctx, l, a.act) == Some(l1)
    ensures LaneWork(l1) <= LaneWork(l) && (OwnStep(a) ==> LaneWork(l1) < LaneWork(l))
  {
    if a.OnLane? && !a.act.PipeRead? && !a.act.WriteDone? && !a.act.WriteFail? && !a.act.ReadEOF? {
      var job, codec :| LaneStep(job, codec, s.ctx, l, a.act) == Some(l1);
      hide LanePhaseOK;
      OtherFields(job, codec, s.ctx, l, a.act, l1);
    }
  }

  /** After the tick no step of any target adds work, and every own step removes some. */
  lemma StallStep(job: Job, s: State, a: Action)
    requires Inv(job, s) && AfterTick(s) && Step(job, s, a).Some? && !a.Join?
    ensures var t := Step(job, s, a).value;
            AfterTick(t) && StallWork(t) <= StallWork(s) && (OwnStep(a) ==> StallWork(t) < StallWork(s))
  {
    if a.Signal? || a.OnLane? {
      StallLaneStep(job, s, a);
    } else if !a.CtxEnd? {
      StallDispatcherStep(job, s, a);
    }
  }

  /** A lane that still owes its signal after the tick can be moved on. */
  lemma PendingLaneMoves(job: Job, s: State, i: nat) returns (a: Action)
    requires Inv(job, s) && s.phase.Collecting? && s.phase.stage.Ticked? && s.phase.got < s.phase.dispatched
    requires i < |s.lanes| && s.lanes[i].pending
    ensures OwnStep(a) && Step(job, s, a).Some?
  {
    var l := s.lanes[i];
    assert LanePhaseOK(s, i, l) && LaneDataOK(job, s, i, l);
    if l.pump.Writing? {
      a := OnLane(i, if l.pump.rest == [] then WriteDone else WriteFail);
    } else if l.pump.Signalling? {
      DistinctBound(s.done + [i], |s.lanes|);
      a := Signal(i);
    } else {
      a := Receive;
    }
  }

  /** After the tick some own step is always enabled: no target can hold the barrier. */
  lemma StallProgress(job: Job, s: State)
    requires Inv(job, s) && AfterTick(s)
    ensures exists a :: OwnStep(a) && Step(job, s, a).Some?
  {
    var a: Action;
    var stage := s.phase.stage;
    if stage.Draining? {
      a := if s.done == [] then DrainEnd else Receive;
    } else if stage.Dropping? {
      a := if stage.next < |s.lanes| then Drop else DropEnd;
    } else if s.phase.got >= s.phase.dispatched {
      a := Join;
    } else {
      NonePending(s.lanes);
      var i :| 0 <= i < |s.lanes| && s.lanes[i].pending;
      a := PendingLaneMoves(job, s, i);
    }
    assert OwnStep(a) && Step(job, s, a).Some?;
  }

  function OwnSteps(run: seq<Action>): nat {
    if run == [] then 0 else Bit(OwnStep(run[0])) + OwnSteps(run[1..])
  }

  /** `collect` terminates once the stall tick fired: a run that stays inside it takes at
  most `StallWork` own steps, and until it leaves, an own step is enabled. */
  lemma {:induction false} CollectTerminates(job: Job, s: State, run: seq<Action>)
    requires Inv(job, s) && AfterTick(s) && Exec(job, s, run).Some?
    requires forall k :: 0 <= k < |run| ==> !run[k].Join?
    ensures var t := Exec(job, s, run).value;
            && AfterTick(t)
            && OwnSteps(run) + StallWork(t) <= StallWork(s)
            && exists a :: OwnStep(a) && Step(job, t, a).Some?
    decreases |run|
  {
    if run == [] {
      StallProgress(job, s);
    } else {
      StepKeeps(job, s, run[0]);
      StallStep(job, s, run[0]);
      CollectTerminates(job, Step(job, s, run[0]).value, run[1..]);
    }
  }
}
