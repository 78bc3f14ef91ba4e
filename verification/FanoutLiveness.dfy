/** What a fan-out achieves. A good source can be stored on every target, however its bytes are
cut into reads; and what the fan-out reports about its source is what the source did. */
module FanoutLiveness {
  import opened Content
  import opened Fanout
  import opened FanoutSafety

  // ---- putting runs together ---------------------------------------------------------------

  lemma {:induction false} Then(job: Job, s: State, run: seq<Action>, more: seq<Action>)
    requires Exec(job, s, run).Some?
    ensures Exec(job, s, run + more) == Exec(job, Exec(job, s, run).value, more)
    decreases |run|
  {
    hide Step;
    if run == [] {
      assert run + more == more;
    } else {
      assert (run + more)[0] == run[0] && (run + more)[1..] == run[1..] + more;
      Then(job, Step(job, s, run[0]).value, run[1..], more);
    }
  }

  lemma {:induction false} ReadsThen(run: seq<Action>, more: seq<Action>)
    ensures Reads(run + more) == Reads(run) + Reads(more)
    decreases |run|
  {
    if run == [] {
      assert run + more == more;
    } else {
      assert (run + more)[0] == run[0] && (run + more)[1..] == run[1..] + more;
      ReadsThen(run[1..], more);
    }
  }

  /** The source's part of a run: what each read returned. */
  function Reads(run: seq<Action>): seq<(Bytes, Option<Err>)>
    decreases |run|
  {
    if run == [] then []
    else (if run[0].SourceRead? then [(run[0].bytes, run[0].e)] else []) + Reads(run[1..])
  }

  /** A run from `s` to `t` in which the source returns exactly `script`. */
  ghost predicate Goes(job: Job, s: State, run: seq<Action>, t: State, script: seq<(Bytes, Option<Err>)>) {
    Exec(job, s, run) == Some(t) && Reads(run) == script
  }

  lemma Onward(job: Job, s: State, run: seq<Action>, t: State, script: seq<(Bytes, Option<Err>)>,
               more: seq<Action>, u: State, script1: seq<(Bytes, Option<Err>)>)
    requires Goes(job, s, run, t, script) && Goes(job, t, more, u, script1)
    ensures Goes(job, s, run + more, u, script + script1)
  {
    hide Exec, Reads;
    Then(job, s, run, more);
    ReadsThen(run, more);
  }

  lemma OneStep(job: Job, s: State, a: Action)
    requires Step(job, s, a).Some?
    ensures Goes(job, s, [a], Step(job, s, a).value, if a.SourceRead? then [(a.bytes, a.e)] else [])
  {
    hide Step;
    var s1 := Step(job, s, a).value;
    assert [a][1..] == [] && [a][0] == a;
    assert Exec(job, s1, []) == Some(s1);
    assert Exec(job, s, [a]) == Exec(job, s1, []);
    assert Reads([a][1..]) == [];
  }

  // ---- one chunk to every target ---------------------------------------------------------------

  /** A lane that has received `bytes` and whose sink is still reading. */
  function Ready(bytes: Bytes): Lane {
    FreshLane().(received := bytes)
  }

  function Handed(sent: Bytes, chunk: Bytes): Lane {
    Ready(sent).(pending := true, pump := Writing(chunk))
  }

  /** The first `k` lanes are `a`, the others `b`. */
  function Split(n: nat, k: nat, a: Lane, b: Lane): seq<Lane> {
    seq(n, i => if i < k then a else b)
  }

  lemma SplitNext(n: nat, k: nat, a: Lane, b: Lane)
    requires k < n
    ensures Split(n, k, a, b)[k := a] == Split(n, k + 1, a, b) && Split(n, k, a, b)[k] == b
  {
  }

  lemma SplitEnds(n: nat, a: Lane, b: Lane)
    ensures Split(n, 0, a, b) == Split(n, n, b, b) && Split(n, n, a, b) == Split(n, n, a, a)
  {
  }

  function DispatchState(n: nat, k: nat, sent: Bytes, chunk: Bytes, rerr: Option<Err>): State {
    State(Dispatching(chunk, k, k, rerr), sent + chunk, sent, Split(n, k, Handed(sent, chunk), Ready(sent)), [], None)
  }

  function CollectState(n: nat, k: nat, sent: Bytes, chunk: Bytes, rerr: Option<Err>): State {
    State(Collecting(chunk, k, n, Waiting, rerr), sent + chunk, sent, Split(n, k, Ready(sent + chunk), Handed(sent, chunk)), [], None)
  }

  /** Between chunks: every lane has all that was sent, `phase` says what comes next. */
  function Between(n: nat, phase: Phase, seen: Bytes, sent: Bytes): State {
    State(phase, seen, sent, Split(n, n, Ready(sent), Ready(sent)), [], None)
  }

  lemma {:induction false} DispatchAll(job: Job, k: nat, sent: Bytes, chunk: Bytes, rerr: Option<Err>) returns (run: seq<Action>)
    requires k <= |job.codecs|
    ensures var n := |job.codecs|; Goes(job, DispatchState(n, k, sent, chunk, rerr), run, DispatchState(n, n, sent, chunk, rerr), [])
    decreases |job.codecs| - k
  {
    hide Exec, Reads, Split;
    var n := |job.codecs|;
    var s := DispatchState(n, k, sent, chunk, rerr);
    if k == n {
      run := [];
      Stay(job, s);
    } else {
      SplitNext(n, k, Handed(sent, chunk), Ready(sent));
      SplitSize(n, k, Handed(sent, chunk), Ready(sent));
      assert Step(job, s, Dispatch) == Some(DispatchState(n, k + 1, sent, chunk, rerr));
      OneStep(job, s, Dispatch);
      var rest := DispatchAll(job, k + 1, sent, chunk, rerr);
      Onward(job, s, [Dispatch], DispatchState(n, k + 1, sent, chunk, rerr), [], rest, DispatchState(n, n, sent, chunk, rerr), []);
      run := [Dispatch] + rest;
    }
  }

  lemma Stay(job: Job, s: State)
    ensures Goes(job, s, [], s, [])
  {
  }

  lemma SplitSize(n: nat, k: nat, a: Lane, b: Lane)
    ensures |Split(n, k, a, b)| == n
  {
  }

  /** Lane `k` has written its share and is about to signal. */
  function WrittenState(n: nat, k: nat, sent: Bytes, chunk: Bytes, rerr: Option<Err>): State
    requires k < n
  {
    var s := CollectState(n, k, sent, chunk, rerr);
    s.(lanes := s.lanes[k := Ready(sent + chunk).(pending := true, pump := Signalling)])
  }

  lemma WriteOne(job: Job, k: nat, sent: Bytes, chunk: Bytes, rerr: Option<Err>) returns (run: seq<Action>)
    requires k < |job.codecs|
    ensures var n := |job.codecs|; Goes(job, CollectState(n, k, sent, chunk, rerr), run, WrittenState(n, k, sent, chunk, rerr), [])
  {
    hide Exec, Reads, Split, LaneExec;
    var n := |job.codecs|;
    var s := CollectState(n, k, sent, chunk, rerr);
    SplitNext(n, k, Ready(sent + chunk), Handed(sent, chunk));
    SplitSize(n, k, Ready(sent + chunk), Handed(sent, chunk));
    var acts := [PipeRead(|chunk|), WriteDone];
    var l := Handed(sent, chunk);
    var l1 := l.(received := sent + chunk, pump := Writing([]));
    assert chunk[..|chunk|] == chunk && chunk[|chunk|..] == [];
    LaneOne(job, job.codecs[k], l1, WriteDone, l1.(pump := Signalling), []);
    LaneOne(job, job.codecs[k], l, PipeRead(|chunk|), l1, [WriteDone]);
    assert [PipeRead(|chunk|)] + [WriteDone] == acts;
    LaneIsolated(job, s, k, acts);
    NoReads(k, acts);
    run := seq(|acts|, j requires 0 <= j < |acts| => OnLane(k, acts[j]));
  }

  /** One lane's share of a chunk: its sink reads it, the pump signals, the dispatcher hears. */
  lemma CollectOne(job: Job, k: nat, sent: Bytes, chunk: Bytes, rerr: Option<Err>) returns (run: seq<Action>)
    requires k < |job.codecs|
    ensures var n := |job.codecs|; Goes(job, CollectState(n, k, sent, chunk, rerr), run, CollectState(n, k + 1, sent, chunk, rerr), [])
  {
    hide Exec, Reads, Split;
    var n := |job.codecs|;
    var s, s1, t := CollectState(n, k, sent, chunk, rerr), WrittenState(n, k, sent, chunk, rerr), CollectState(n, k + 1, sent, chunk, rerr);
    SplitNext(n, k, Ready(sent + chunk), Handed(sent, chunk));
    SplitSize(n, k, Ready(sent + chunk), Handed(sent, chunk));
    var l := Ready(sent + chunk).(pending := true);
    var s2 := s.(lanes := s.lanes[k := l], done := [k]);
    assert s1.lanes[k := l] == s2.lanes && s1.done + [k] == s2.done;
    assert Step(job, s1, Signal(k)) == Some(s2);
    assert s2.lanes[k := l.(pending := false)] == t.lanes && s2.done[1..] == t.done;
    assert Step(job, s2, Receive) == Some(t);
    var write := WriteOne(job, k, sent, chunk, rerr);
    OneStep(job, s1, Signal(k));
    OneStep(job, s2, Receive);
    Onward(job, s1, [Signal(k)], s2, [], [Receive], t, []);
    Onward(job, s, write, s1, [], [Signal(k)] + [Receive], t, []);
    run := write + ([Signal(k)] + [Receive]);
  }

  lemma {:induction false} CollectAll(job: Job, k: nat, sent: Bytes, chunk: Bytes, rerr: Option<Err>) returns (run: seq<Action>)
    requires k <= |job.codecs|
    ensures var n := |job.codecs|; Goes(job, CollectState(n, k, sent, chunk, rerr), run, CollectState(n, n, sent, chunk, rerr), [])
    decreases |job.codecs| - k
  {
    hide Exec, Reads, Split, CollectState;
    var n := |job.codecs|;
    if k == n {
      run := [];
      Stay(job, CollectState(n, k, sent, chunk, rerr));
    } else {
      var one := CollectOne(job, k, sent, chunk, rerr);
      var rest := CollectAll(job, k + 1, sent, chunk, rerr);
      Onward(job, CollectState(n, k, sent, chunk, rerr), one, CollectState(n, k + 1, sent, chunk, rerr), [],
             rest, CollectState(n, n, sent, chunk, rerr), []);
      run := one + rest;
    }
  }

  /** A whole chunk reaches every target. */
  lemma Round(job: Job, sent: Bytes, chunk: Bytes, rerr: Option<Err>) returns (run: seq<Action>)
    requires job.codecs != []
    ensures var n := |job.codecs|;
            Goes(job, Between(n, Dispatching(chunk, 0, 0, rerr), sent + chunk, sent), run,
                 Between(n, AfterChunk(rerr), sent + chunk, sent + chunk), [])
  {
    hide Exec, Reads, Split, AfterChunk;
    var n := |job.codecs|;
    SplitEnds(n, Handed(sent, chunk), Ready(sent));
    SplitEnds(n, Ready(sent + chunk), Handed(sent, chunk));
    SplitSize(n, n, Handed(sent, chunk), Ready(sent));
    SplitSize(n, n, Ready(sent + chunk), Handed(sent, chunk));
    var s0, s1 := DispatchState(n, 0, sent, chunk, rerr), DispatchState(n, n, sent, chunk, rerr);
    var s2, s3 := CollectState(n, 0, sent, chunk, rerr), CollectState(n, n, sent, chunk, rerr);
    var t := Between(n, AfterChunk(rerr), sent + chunk, sent + chunk);
    var a := DispatchAll(job, 0, sent, chunk, rerr);
    OneStep(job, s1, DispatchEnd);
    assert Step(job, s1, DispatchEnd) == Some(s2);
    var b := CollectAll(job, 0, sent, chunk, rerr);
    assert !s3.lanes[0].dead by { FirstOf(n, Ready(sent + chunk)); }
    assert Step(job, s3, Join) == Some(t);
    OneStep(job, s3, Join);
    Onward(job, s2, b, s3, [], [Join], t, []);
    Onward(job, s1, [DispatchEnd], s2, [], b + [Join], t, []);
    Onward(job, s0, a, s1, [], [DispatchEnd] + (b + [Join]), t, []);
    run := a + ([DispatchEnd] + (b + [Join]));
  }

  lemma FirstOf(n: nat, a: Lane)
    requires n > 0
    ensures Split(n, n, a, a)[0] == a
  {
  }

  // ---- from the end of the copy to the return ------------------------------------------------

  function Stopped(p: Bytes): Lane { Ready(p).(pump := Exited) }

  function ShutLane(p: Bytes, err: Option<Err>): Lane { Stopped(p).(write := Shut(err)) }

  /** A lane at the end: committed and stored after a clean copy, failed otherwise. */
  function FinalLane(job: Job, i: nat, p: Bytes, err: Option<Err>): Lane
    requires i < |job.codecs|
  {
    var l := ShutLane(p, err).(readerShut := true, cancelled := true);
    if err == None then
      l.(pipeEOF := true, sinkEOF := true, store := Returned(true, true), result := Returned(true, true),
      commit := Full(Encode(job.compress, job.codecs[i], p)))
    else l.(store := Returned(false, false), result := Returned(false, false))
  }

  function FinalLanes(job: Job, k: nat, p: Bytes, err: Option<Err>): seq<Lane>
    requires k <= |job.codecs|
  {
    seq(|job.codecs|, i requires 0 <= i < |job.codecs| => if i < k then FinalLane(job, i, p, err) else ShutLane(p, err))
  }

  function JoinState(job: Job, k: nat, p: Bytes, err: Option<Err>): State
    requires k <= |job.codecs|
  {
    State(Joining(err), p, p, FinalLanes(job, k, p, err), [], None)
  }

  function ShutState(n: nat, k: nat, p: Bytes, err: Option<Err>): State {
    State(Shutting(err, k), p, p, Split(n, k, ShutLane(p, err), Stopped(p)), [], None)
  }

  lemma {:induction false} ShutAll(job: Job, k: nat, p: Bytes, err: Option<Err>) returns (run: seq<Action>)
    requires k <= |job.codecs|
    ensures var n := |job.codecs|; Goes(job, ShutState(n, k, p, err), run, ShutState(n, n, p, err), [])
    decreases |job.codecs| - k
  {
    hide Exec, Reads, Split;
    var n := |job.codecs|;
    var s := ShutState(n, k, p, err);
    if k == n {
      run := [];
      Stay(job, s);
    } else {
      SplitNext(n, k, ShutLane(p, err), Stopped(p));
      SplitSize(n, k, ShutLane(p, err), Stopped(p));
      assert Step(job, s, ShutWriter) == Some(ShutState(n, k + 1, p, err));
      OneStep(job, s, ShutWriter);
      var rest := ShutAll(job, k + 1, p, err);
      Onward(job, s, [ShutWriter], ShutState(n, k + 1, p, err), [], rest, ShutState(n, n, p, err), []);
      run := [ShutWriter] + rest;
    }
  }

  function LastActs(err: Option<Err>): seq<LaneAct> {
    if err == None then [ReadEOF, SinkEOF, SinkCommit, StoreReturn(true), Collect, ShutReader]
    else [StoreReturn(false), Collect, ShutReader]
  }

  lemma LaneFinishes(job: Job, i: nat, p: Bytes, err: Option<Err>)
    requires i < |job.codecs|
    ensures LaneExec(job, job.codecs[i], None, ShutLane(p, err), LastActs(err)) == Some(FinalLane(job, i, p, err))
  {
    hide Encode;
    var codec, l := job.codecs[i], ShutLane(p, err);
    if err == None {
      var l1 := l.(pipeEOF := true);
      var l2 := l1.(sinkEOF := true);
      var l3 := l2.(commit := Full(Encode(job.compress, codec, p)));
      var l4 := l3.(store := Returned(true, true));
      var l5 := l4.(result := Returned(true, true));
      LaneOne(job, codec, l5, ShutReader, FinalLane(job, i, p, err), []);
      LaneOne(job, codec, l4, Collect, l5, [ShutReader]);
      LaneOne(job, codec, l3, StoreReturn(true), l4, [Collect, ShutReader]);
      LaneOne(job, codec, l2, SinkCommit, l3, [StoreReturn(true), Collect, ShutReader]);
      LaneOne(job, codec, l1, SinkEOF, l2, [SinkCommit, StoreReturn(true), Collect, ShutReader]);
      LaneOne(job, codec, l, ReadEOF, l1, [SinkEOF, SinkCommit, StoreReturn(true), Collect, ShutReader]);
    } else {
      var l1 := l.(store := Returned(false, false));
      var l2 := l1.(result := Returned(false, false));
      LaneOne(job, codec, l2, ShutReader, FinalLane(job, i, p, err), []);
      LaneOne(job, codec, l1, Collect, l2, [ShutReader]);
      LaneOne(job, codec, l, StoreReturn(false), l1, [Collect, ShutReader]);
    }
  }

  lemma LaneOne(job: Job, codec: Codec, l: Lane, a: LaneAct, l1: Lane, rest: seq<LaneAct>)
    requires LaneStep(job, codec, None, l, a) == Some(l1)
    ensures LaneExec(job, codec, None, l, [a] + rest) == LaneExec(job, codec, None, l1, rest)
    ensures rest == [] ==> LaneExec(job, codec, None, l, [a]) == Some(l1)
  {
    hide LaneStep;
    assert ([a] + rest)[1..] == rest;
    assert [a][1..] == [];
  }

  lemma {:induction false} NoReads(i: nat, acts: seq<LaneAct>)
    ensures Reads(seq(|acts|, k requires 0 <= k < |acts| => OnLane(i, acts[k]))) == []
  {
    var run := seq(|acts|, k requires 0 <= k < |acts| => OnLane(i, acts[k]));
    if acts != [] {
      NoReads(i, acts[1..]);
      assert run[1..] == seq(|acts[1..]|, k requires 0 <= k < |acts[1..]| => OnLane(i, acts[1..][k]));
    }
  }

  lemma FinishOne(job: Job, k: nat, p: Bytes, err: Option<Err>) returns (run: seq<Action>)
    requires k < |job.codecs|
    ensures Goes(job, JoinState(job, k, p, err), run, JoinState(job, k + 1, p, err), [])
  {
    hide Exec, Reads, LaneExec;
    var s := JoinState(job, k, p, err);
    var acts := LastActs(err);
    LaneFinishes(job, k, p, err);
    LaneIsolated(job, s, k, acts);
    NoReads(k, acts);
    run := seq(|acts|, j requires 0 <= j < |acts| => OnLane(k, acts[j]));
    assert s.lanes[k := FinalLane(job, k, p, err)] == JoinState(job, k + 1, p, err).lanes;
  }

  lemma {:induction false} FinishAll(job: Job, k: nat, p: Bytes, err: Option<Err>) returns (run: seq<Action>)
    requires k <= |job.codecs|
    ensures Goes(job, JoinState(job, k, p, err), run, JoinState(job, |job.codecs|, p, err), [])
    decreases |job.codecs| - k
  {
    hide Exec, Reads, JoinState;
    if k == |job.codecs| {
      run := [];
      Stay(job, JoinState(job, k, p, err));
    } else {
      var one := FinishOne(job, k, p, err);
      var rest := FinishAll(job, k + 1, p, err);
      Onward(job, JoinState(job, k, p, err), one, JoinState(job, k + 1, p, err), [], rest, JoinState(job, |job.codecs|, p, err), []);
      run := one + rest;
    }
  }

  function DoneState(job: Job, p: Bytes, err: Option<Err>): State {
    State(Done(err, None), p, p, FinalLanes(job, |job.codecs|, p, err), [], None)
  }

  /** Everything after the copy loop. */
  lemma Closing(job: Job, p: Bytes, err: Option<Err>) returns (run: seq<Action>)
    ensures Goes(job, Between(|job.codecs|, Stopping(err), p, p), run, DoneState(job, p, err), [])
  {
    hide Exec, Reads;
    var n := |job.codecs|;
    var s0, s1 := Between(n, Stopping(err), p, p), ShutState(n, 0, p, err);
    var s2, s3 := ShutState(n, n, p, err), JoinState(job, 0, p, err);
    var s4, t := JoinState(job, n, p, err), DoneState(job, p, err);
    assert seq(n, i requires 0 <= i < n => s0.lanes[i].(pump := Exited)) == s1.lanes;
    assert Step(job, s0, StopPumps) == Some(s1);
    OneStep(job, s0, StopPumps);
    var a := ShutAll(job, 0, p, err);
    assert s2.lanes == s3.lanes;
    assert Step(job, s2, ShutEnd) == Some(s3);
    OneStep(job, s2, ShutEnd);
    var b := FinishAll(job, 0, p, err);
    assert Step(job, s4, Return) == Some(t);
    OneStep(job, s4, Return);
    Onward(job, s3, b, s4, [], [Return], t, []);
    Onward(job, s2, [ShutEnd], s3, [], b + [Return], t, []);
    Onward(job, s1, a, s2, [], [ShutEnd] + (b + [Return]), t, []);
    Onward(job, s0, [StopPumps], s1, [], a + ([ShutEnd] + (b + [Return])), t, []);
    run := [StopPumps] + (a + ([ShutEnd] + (b + [Return])));
  }

  // ---- a good source, in any chunking -----------------------------------------------------------

  function Concat(parts: seq<Bytes>): Bytes {
    if parts == [] then [] else parts[0] + Concat(parts[1..])
  }

  /** Each read returns what fits the buffer, of which `fill` bytes are taken already. */
  predicate Fits(buffer: nat, fill: nat, parts: seq<Bytes>)
    decreases |parts|
  {
    fill < buffer && (parts == [] || (fill + |parts[0]| <= buffer && Fits(buffer, Fill(buffer, fill, parts[0]), parts[1..])))
  }

  function Fill(buffer: nat, fill: nat, part: Bytes): nat {
    if fill + |part| == buffer then 0 else fill + |part|
  }

  /** What the source returns: the parts in turn, the last with the end of the stream, and the
  end of the stream once more when that last part had filled the buffer. */
  function Script(buffer: nat, fill: nat, parts: seq<Bytes>, e: Err): seq<(Bytes, Option<Err>)>
    requires parts != []
    decreases |parts|
  {
    if |parts| > 1 then [(parts[0], None)] + Script(buffer, Fill(buffer, fill, parts[0]), parts[1..], e)
    else if fill + |parts[0]| == buffer then [(parts[0], Some(e)), ([], Some(e))]
    else [(parts[0], Some(e))]
  }

  /** A read that ends nothing: the buffer grows, or a full one goes to every target. */
  lemma ReadOne(job: Job, p: Bytes, sent: Bytes, buf: Bytes, part: Bytes, e: Option<Err>) returns (run: seq<Action>, sent1: Bytes, buf1: Bytes)
    requires job.codecs != [] && |buf| + |part| <= job.buffer && |buf| < job.buffer && sent + buf + part <= p && WithinCap(job.cap, |p|)
    requires e.Some? ==> |buf| + |part| == job.buffer && EndOfStream(e) && sent + buf + part == p && job.hash(p) == job.key
    ensures var n := |job.codecs|;
            Goes(job, Between(n, Filling(buf), sent + buf, sent), run, Between(n, Filling(buf1), sent1 + buf1, sent1), [(part, e)])
    ensures sent1 + buf1 == sent + buf + part && |buf1| == Fill(job.buffer, |buf|, part)
  {
    hide Exec, Reads, Split;
    var n := |job.codecs|;
    var s := Between(n, Filling(buf), sent + buf, sent);
    var filled := buf + part;
    assert (sent + buf) + part == sent + filled == sent + buf + part;
    assert |sent + filled| <= |p|;
    OneStep(job, s, SourceRead(part, e));
    run := [SourceRead(part, e)];
    if |filled| < job.buffer {
      sent1, buf1 := sent, filled;
      assert Step(job, s, SourceRead(part, e)) == Some(Between(n, Filling(filled), sent + filled, sent));
    } else {
      sent1, buf1 := sent + filled, [];
      var s1 := Between(n, Dispatching(filled, 0, 0, None), sent + filled, sent);
      assert Step(job, s, SourceRead(part, e)) == Some(s1);
      var round := Round(job, sent, filled, None);
      assert sent1 + [] == sent1;
      var t := Between(n, Filling([]), sent1 + buf1, sent1);
      Onward(job, s, run, s1, [(part, e)], round, t, []);
      assert [(part, e)] + [] == [(part, e)];
      run := run + round;
    }
  }

  /** The read that ends the stream without filling the buffer. */
  lemma ReadLast(job: Job, sent: Bytes, buf: Bytes, part: Bytes, e: Err) returns (run: seq<Action>)
    requires job.codecs != [] && |buf| + |part| < job.buffer && EndOfStream(Some(e))
    requires Verified(job.hash, job.key, job.cap, sent + buf + part)
    ensures var n, p := |job.codecs|, sent + buf + part;
            Goes(job, Between(n, Filling(buf), sent + buf, sent), run, Between(n, Stopping(None), p, p), [(part, Some(e))])
  {
    hide Exec, Reads, Split;
    var n, p := |job.codecs|, sent + buf + part;
    var s, filled := Between(n, Filling(buf), sent + buf, sent), buf + part;
    assert (sent + buf) + part == p == sent + filled;
    OneStep(job, s, SourceRead(part, Some(e)));
    run := [SourceRead(part, Some(e))];
    if filled == [] {
      assert p == sent;
      assert Step(job, s, SourceRead(part, Some(e))) == Some(Between(n, Stopping(None), p, p));
    } else {
      var rerr := if e == EOF then Some(UnexpectedEOF) else Some(e);
      var s1 := Between(n, Dispatching(filled, 0, 0, rerr), sent + filled, sent);
      assert Step(job, s, SourceRead(part, Some(e))) == Some(s1);
      var round := Round(job, sent, filled, rerr);
      Onward(job, s, run, s1, [(part, Some(e))], round, Between(n, Stopping(None), p, p), []);
      assert [(part, Some(e))] + [] == [(part, Some(e))];
      run := run + round;
    }
  }

  lemma {:induction false} ReadAll(job: Job, p: Bytes, sent: Bytes, buf: Bytes, parts: seq<Bytes>, e: Err) returns (run: seq<Action>)
    requires job.codecs != [] && parts != [] && Fits(job.buffer, |buf|, parts) && EndOfStream(Some(e))
    requires Verified(job.hash, job.key, job.cap, p) && sent + buf + Concat(parts) == p
    ensures var n := |job.codecs|;
            Goes(job, Between(n, Filling(buf), sent + buf, sent), run, Between(n, Stopping(None), p, p),
                 Script(job.buffer, |buf|, parts, e))
    decreases |parts|
  {
    hide Goes, Between;
    var n, part := |job.codecs|, parts[0];
    assert sent + buf + part + Concat(parts[1..]) == p;
    if |parts| > 1 {
      var one, sent1, buf1 := ReadOne(job, p, sent, buf, part, None);
      var rest := ReadAll(job, p, sent1, buf1, parts[1..], e);
      Onward(job, Between(n, Filling(buf), sent + buf, sent), one, Between(n, Filling(buf1), sent1 + buf1, sent1), [(part, None)],
             rest, Between(n, Stopping(None), p, p), Script(job.buffer, |buf1|, parts[1..], e));
      run := one + rest;
    } else {
      assert parts[1..] == [] && sent + buf + part == p;
      if |buf| + |part| == job.buffer {
        var one, sent1, buf1 := ReadOne(job, p, sent, buf, part, Some(e));
        assert sent1 + buf1 + [] == p;
        var last := ReadLast(job, sent1, buf1, [], e);
        Onward(job, Between(n, Filling(buf), sent + buf, sent), one, Between(n, Filling(buf1), sent1 + buf1, sent1), [(part, Some(e))],
               last, Between(n, Stopping(None), p, p), [([], Some(e))]);
        assert [(part, Some(e))] + [([], Some(e))] == [(part, Some(e)), ([], Some(e))];
        run := one + last;
      } else {
        run := ReadLast(job, sent, buf, part, e);
      }
    }
  }

  /** A good source is stored. For every job and every plaintext that hashes to its key and fits
  its cap, however the source cuts it into reads and whichever way it ends, there is a run in
  which every target commits its encoding of the plaintext and is reported stored, the verified
  size is the plaintext's length, and no error is reported. */
  lemma GoodSourceStores(job: Job, p: Bytes, parts: seq<Bytes>, e: Err) returns (run: seq<Action>, s: State)
    requires job.codecs != [] && parts != [] && Fits(job.buffer, 0, parts) && EndOfStream(Some(e))
    requires Concat(parts) == p && Verified(job.hash, job.key, job.cap, p)
    ensures Exec(job, Init(job), run) == Some(s) && Reads(run) == Script(job.buffer, 0, parts, e)
    ensures s.phase.Done? && VerifiedSize(s) == Some(|p|) && SourceError(s) == None && |s.lanes| == |job.codecs|
    ensures forall i :: 0 <= i < |s.lanes| ==>
              Stored(s, i) && s.lanes[i].commit == Full(Encode(job.compress, job.codecs[i], p))
  {
    hide Exec, Reads, Fits, Script, Concat;
    var n := |job.codecs|;
    assert [] + [] + p == p && Between(n, Filling([]), [] + [], []) == Init(job);
    var copy := ReadAll(job, p, [], [], parts, e);
    var close := Closing(job, p, None);
    s := DoneState(job, p, None);
    Onward(job, Init(job), copy, Between(n, Stopping(None), p, p), Script(job.buffer, 0, parts, e), close, s, []);
    assert Script(job.buffer, 0, parts, e) + [] == Script(job.buffer, 0, parts, e);
    run := copy + close;
  }

  // ---- what is reported about the source --------------------------------------------------------

  /** What a step lets the fan-out know about its source: the verifying reader's answer. */
  function Report(job: Job, s: State, a: Action): Option<Option<Err>> {
    if !s.phase.Filling? then None
    else if a.SourcePanic? then Some(Some(Fault))
    else if a.SourceRead? then Some(Verdict(job.hash, job.key, job.cap, s.seen + a.bytes, a.e))
    else None
  }

  /** The last such answer of a run, `r` standing for those before it. */
  function LastReport(job: Job, s: State, run: seq<Action>, r: Option<Err>): Option<Err>
    requires Exec(job, s, run).Some?
    decreases |run|
  {
    if run == [] then r
    else
      var now := Report(job, s, run[0]);
      LastReport(job, Step(job, s, run[0]).value, run[1..], if now.Some? then now.value else r)
  }

  predicate AllDead(s: State) {
    forall i :: 0 <= i < |s.lanes| ==> s.lanes[i].dead
  }

  /** The copy's error `err` is what the source last reported, or every target died. */
  predicate EndsAs(s: State, err: Option<Err>, r: Option<Err>) {
    if err == None then EndOfStream(r) else (err == r && !EndOfStream(r)) || (err == Some(ClosedPipe) && AllDead(s))
  }

  predicate EndTracked(s: State, r: Option<Err>) {
    match s.phase
    case Filling(_) => true
    case Dispatching(_, _, _, rerr) => rerr == None || rerr == r || (rerr == Some(UnexpectedEOF) && r == Some(EOF))
    case Collecting(_, _, _, _, rerr) => rerr == None || rerr == r || (rerr == Some(UnexpectedEOF) && r == Some(EOF))
    case Stopping(err) => EndsAs(s, err, r)
    case Shutting(err, _) => EndsAs(s, err, r)
    case Joining(err) => EndsAs(s, err, r)
    case Done(err, _) => EndsAs(s, err, r)
  }

  lemma DispatcherTracks(job: Job, s: State, a: Action, r: Option<Err>)
    requires EndTracked(s, r) && DispatcherStep(job, s, a).Some?
    ensures var now := Report(job, s, a); EndTracked(DispatcherStep(job, s, a).value, if now.Some? then now.value else r)
  {
    hide Verdict;
  }

  lemma LaneKeepsDead(job: Job, codec: Codec, ctx: Option<Err>, l: Lane, act: LaneAct)
    requires LaneStep(job, codec, ctx, l, act).Some?
    ensures l.dead ==> LaneStep(job, codec, ctx, l, act).value.dead
  {
    hide Encode;
  }

  lemma StepTracks(job: Job, s: State, a: Action, r: Option<Err>)
    requires EndTracked(s, r) && Step(job, s, a).Some?
    ensures var now := Report(job, s, a); EndTracked(Step(job, s, a).value, if now.Some? then now.value else r)
  {
    hide LaneStep, Verdict, DispatcherStep;
    if a.OnLane? {
      LaneKeepsDead(job, job.codecs[a.i], s.ctx, s.lanes[a.i], a.act);
    } else if !a.Signal? && !a.CtxEnd? {
      DispatcherTracks(job, s, a, r);
    }
  }

  lemma {:induction false} RunTracks(job: Job, s: State, run: seq<Action>, r: Option<Err>)
    requires EndTracked(s, r) && Exec(job, s, run).Some?
    ensures EndTracked(Exec(job, s, run).value, LastReport(job, s, run, r))
    decreases |run|
  {
    hide EndTracked, Report, Step;
    if run != [] {
      StepTracks(job, s, run[0], r);
      var now := Report(job, s, run[0]);
      RunTracks(job, Step(job, s, run[0]).value, run[1..], if now.Some? then now.value else r);
    }
  }

  /** In every run that returns with its context live and some target alive: the source's last
  answer was a verified end of stream exactly when a size is reported, which is then that of
  everything read; otherwise that answer is the error reported, unless it reads as a closed pipe. */
  lemma SourceIsReported(job: Job, run: seq<Action>, s: State)
    requires job.buffer > 0 && Exec(job, Init(job), run) == Some(s) && s.phase.Done? && s.phase.ended == None && !AllDead(s)
    ensures var r := LastReport(job, Init(job), run, None);
            && (EndOfStream(r) <==> VerifiedSize(s).Some?)
            && (VerifiedSize(s).Some? ==> VerifiedSize(s) == Some(|s.seen|) && Verified(job.hash, job.key, job.cap, s.seen) && SourceError(s) == None)
            && (!EndOfStream(r) ==> r.Some? && SourceError(s) == if r == Some(ClosedPipe) then None else r)
  {
    hide Exec, Report, LastReport;
    assert Reachable(job, s);
    ReachableInv(job, s);
    RunTracks(job, Init(job), run, None);
  }

  /** Hence a source that ended on an error, or on bytes that are not the object, is reported. */
  lemma BadSourceIsReported(job: Job, run: seq<Action>, s: State)
    requires job.buffer > 0 && Exec(job, Init(job), run) == Some(s) && s.phase.Done? && s.phase.ended == None && !AllDead(s)
    requires var r := LastReport(job, Init(job), run, None);
             r != Some(ClosedPipe) && (!EndOfStream(r) || !Verified(job.hash, job.key, job.cap, s.seen))
    ensures SourceError(s).Some? && VerifiedSize(s) == None
  {
    hide Exec, LastReport;
    SourceIsReported(job, run, s);
  }

  /** The exception is real: a source whose own error is io.ErrClosedPipe, with every target
  healthy, is taken for the death of all targets. No error is reported, no size, and every
  target reads as failed. */
  lemma ClosedPipeSourceBlamesTargets(job: Job) returns (run: seq<Action>, s: State)
    requires job.codecs != [] && job.buffer > 0
    ensures Exec(job, Init(job), run) == Some(s) && Reads(run) == [([], Some(ClosedPipe))]
    ensures s.phase.Done? && s.phase.ended == None && SourceError(s) == None && VerifiedSize(s) == None
    ensures |s.lanes| == |job.codecs| && forall i :: 0 <= i < |s.lanes| ==> !s.lanes[i].dead && !Stored(s, i)
  {
    hide Exec, Reads;
    var n, a := |job.codecs|, SourceRead([], Some(ClosedPipe));
    var s1 := Between(n, Stopping(Some(ClosedPipe)), [], []);
    assert Between(n, Filling([]), [], []) == Init(job);
    assert Step(job, Init(job), a) == Some(s1);
    OneStep(job, Init(job), a);
    var close := Closing(job, [], Some(ClosedPipe));
    s := DoneState(job, [], Some(ClosedPipe));
    var script := [(a.bytes, a.e)];
    Onward(job, Init(job), [a], s1, script, close, s, []);
    assert script + [] == script;
    run := [a] + close;
  }

  // ---- an ended context --------------------------------------------------------------------------

  /** The cause of the first end of the context in a run. */
  function FirstEnd(run: seq<Action>): Option<Err> {
    if run == [] then None else if run[0].CtxEnd? then Some(run[0].cause) else FirstEnd(run[1..])
  }

  lemma ContextStep(job: Job, s: State, a: Action)
    requires Step(job, s, a).Some? && (s.phase.Done? ==> s.phase.ended == s.ctx)
    ensures var s1 := Step(job, s, a).value;
            && s1.ctx == (if a.CtxEnd? then Some(a.cause) else s.ctx) && (a.CtxEnd? ==> s.ctx == None)
            && (s1.phase.Done? ==> s1.phase.ended == s1.ctx)
  {
    hide LaneStep, Verdict, ReadFull;
  }

  lemma {:induction false} ContextRun(job: Job, s: State, run: seq<Action>)
    requires Exec(job, s, run).Some? && (s.phase.Done? ==> s.phase.ended == s.ctx)
    ensures var t := Exec(job, s, run).value;
            && t.ctx == (if s.ctx.Some? then s.ctx else FirstEnd(run)) && (t.phase.Done? ==> t.phase.ended == t.ctx)
    decreases |run|
  {
    hide Step;
    if run != [] {
      ContextStep(job, s, run[0]);
      ContextRun(job, Step(job, s, run[0]).value, run[1..]);
    }
  }

  /** An end of the context before the fan-out returned is reported before anything about the
  source, and a stream that had verified by then still has its size. */
  lemma AbortIsReported(job: Job, run: seq<Action>, s: State)
    requires job.buffer > 0 && Exec(job, Init(job), run) == Some(s) && s.phase.Done? && FirstEnd(run).Some?
    ensures SourceError(s) == FirstEnd(run)
    ensures !AllDead(s) ==> (VerifiedSize(s).Some? <==> EndOfStream(LastReport(job, Init(job), run, None)))
    ensures VerifiedSize(s).Some? ==> VerifiedSize(s) == Some(|s.seen|) && Verified(job.hash, job.key, job.cap, s.seen)
  {
    hide Exec, Report, LastReport, FirstEnd;
    assert Reachable(job, s);
    ReachableInv(job, s);
    ContextRun(job, Init(job), run);
    RunTracks(job, Init(job), run, None);
  }
}
