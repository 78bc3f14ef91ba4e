/** One worker's handling of one claimed row, start to finish. */
module Consumer {
  import opened Content
  import C = Circuit
  import L = LedgerStore
  import O = OutboxStore
  import P = Pipeline
  import Protocol

  class Worker {
    const outbox: O.OutboxRepo
    const pipeline: P.BackupPipeline

    constructor (outbox: O.OutboxRepo, pipeline: P.BackupPipeline)
      ensures this.outbox == outbox && this.pipeline == pipeline
    {
      this.outbox, this.pipeline := outbox, pipeline;
    }

    /** Closes the claimed row as the verdict asks; a failed statement is only logged. */
    method Settle(id: O.RowId, v: P.Verdict, shutdown: bool, jitter: nat, now: int, fault: bool) returns (deadLettered: bool)
      modifies outbox
      ensures outbox.rows == if fault then old(outbox.rows)
                             else O.Apply(outbox.lim, old(outbox.rows), O.Settle(id, Protocol.HowToSettle(v, shutdown, jitter), now))
      ensures outbox.rows.Keys == old(outbox.rows).Keys && forall x :: x in outbox.rows && x != id ==> outbox.rows[x] == old(outbox.rows)[x]
      ensures id in outbox.rows ==>
                if !fault && old(outbox.rows)[id].status.InProgress?
                then Closed(outbox.lim, old(outbox.rows)[id], outbox.rows[id], v, shutdown, jitter, now)
                else outbox.rows[id] == old(outbox.rows)[id]
      ensures deadLettered ==> !shutdown && !(v.done && v.err.None?) && !v.deferred && v.err != Some(P.SourceGone)
    {
      hide O.Apply, O.Wait;
      deadLettered := false;
      if fault {
        return;
      }
      if v.done && v.err.None? {
        var _ := outbox.SettleRowById(id, O.MarkDone, now);
      } else if shutdown {
        var _ := outbox.SettleRowById(id, O.Release, now);
      } else if v.err == Some(P.SourceGone) {
        var _ := outbox.SettleRowById(id, O.Skip, now);
      } else if v.deferred {
        var _ := outbox.SettleRowById(id, O.Defer(jitter), now);
      } else {
        deadLettered := outbox.SettleRowById(id, O.Fail, now);
      }
    }

    /** The row becomes done only with its object stored on every target, and becomes done
    whenever the backup answers done; no other row moves. A panic in the backup, before its
    effects or after them, is charged as a failure even on shutdown. */
    method Process(id: O.RowId, size: int, readFault: bool, planClock: nat -> C.Time, fan: seq<P.Target> -> P.Fan, ctx: P.Context,
                   recordClock: nat -> C.Time, recordedAt: C.Time, writeFault: bool, panic: Panic,
                   shutdown: bool, jitter: nat, now: int, settleFault: bool)
      returns (answer: P.Verdict, deadLettered: bool)
      requires pipeline.Valid() && id in outbox.rows
      requires forall p :: fan(p).Fanned? ==> |fan(p).results| == |p|
      modifies outbox, pipeline.ledger, pipeline.breaker
      ensures pipeline.Valid() && outbox.rows.Keys == old(outbox.rows).Keys
      ensures forall r :: r in outbox.rows && r != id ==> outbox.rows[r] == old(outbox.rows)[r]
      ensures outbox.rows[id].status.IsDone? && !old(outbox.rows)[id].status.IsDone? ==>
                !panic.InBackup? && P.StoredEverywhere(pipeline.ledger.View(), old(outbox.rows)[id].externalID, pipeline.targets)
      ensures old(outbox.rows)[id].status.InProgress? && !settleFault ==>
                if panic.InBackup? then O.Settled(outbox.lim, old(outbox.rows)[id], outbox.rows[id], O.Fail, now)
                else Closed(outbox.lim, old(outbox.rows)[id], outbox.rows[id], answer, shutdown, jitter, now)
      ensures shutdown && !panic.InBackup? ==> !deadLettered
      ensures !panic.InBackup? && !readFault && !writeFault && pipeline.targets != [] && IsContentHash(old(outbox.rows)[id].externalID)
              && LetsThrough(old(pipeline.Circuit()), pipeline.targets, planClock) && EveryStoreWorks(fan) ==>
                answer == P.Verdict(true, false, None)
    {
      hide P.Conclude, P.PlanTo, L.Recorded, IsContentHash, L.IsStored, P.DistinctNames, O.Apply, Closed, O.Settled, LetsThrough, EveryStoreWorks;
      var key := outbox.rows[id].externalID;
      answer := P.Verdict(false, false, None);
      if !panic.InBackup? || panic.late {
        AnswersDone(pipeline.targets, pipeline.ledger.StoredTargets(key), pipeline.Circuit(), planClock, P.Item(key, size), fan, ctx, recordClock);
        answer := pipeline.BackupFrom(P.Item(key, size), None, readFault, planClock, fan, ctx, recordClock, recordedAt, writeFault);
      }
      if panic.InBackup? {
        FailIsNotDone(outbox.lim, outbox.rows[id], now);
        deadLettered := false;
        if !settleFault {
          deadLettered := outbox.SettleRowById(id, O.Fail, now);
        }
        return;
      }
      deadLettered := Settle(id, answer, shutdown, jitter, now, settleFault);
      OnlyDoneIsDone(outbox.lim, old(outbox.rows)[id], outbox.rows[id], answer, shutdown, jitter, now);
    }
  }

  /** How a claimed row looks after the attempt that answered `v`: done when it was, put back
  untouched on shutdown, skipped when its source is gone, deferred, or charged, in that order. */
  predicate Closed(lim: O.Limits, r: O.Row, s: O.Row, v: P.Verdict, shutdown: bool, jitter: nat, now: int) {
    if v.done && v.err == None then O.Settled(lim, r, s, O.MarkDone, now)
    else if shutdown then O.Settled(lim, r, s, O.Release, now)
    else if v.err == Some(P.SourceGone) then O.Settled(lim, r, s, O.Skip, now)
    else if v.deferred then O.Settled(lim, r, s, O.Defer(jitter), now)
    else O.Settled(lim, r, s, O.Fail, now)
  }

  lemma OnlyDoneIsDone(lim: O.Limits, r: O.Row, s: O.Row, v: P.Verdict, shutdown: bool, jitter: nat, now: int)
    ensures Closed(lim, r, s, v, shutdown, jitter, now) && s.status.IsDone? ==> v.done && v.err == None
  {
    hide O.Wait;
  }

  lemma FailIsNotDone(lim: O.Limits, r: O.Row, now: int)
    ensures forall s :: O.Settled(lim, r, s, O.Fail, now) ==> !s.status.IsDone?
  {
    hide O.Wait;
  }

  /** No circuit keeps a target out. */
  predicate LetsThrough(b: Option<C.Breaker>, targets: seq<P.Target>, clock: nat -> C.Time) {
    forall i :: 0 <= i < |targets| ==> !P.CircuitRefuses(b, targets[i].name, clock(2 * i))
  }

  ghost predicate EveryStoreWorks(fan: seq<P.Target> -> P.Fan) {
    forall p :: fan(p).Fanned? && !fan(p).ferr && |fan(p).results| == |p| && P.AllStored(fan(p).results, |p|)
  }

  /** Where every target is let through and every store works, the object is done. */
  lemma AnswersDone(targets: seq<P.Target>, stored: set<string>, b: Option<C.Breaker>, planClock: nat -> C.Time, item: P.Item,
                    fan: seq<P.Target> -> P.Fan, ctx: P.Context, clock: nat -> C.Time)
    requires P.DistinctNames(targets)
    ensures LetsThrough(b, targets, planClock) && EveryStoreWorks(fan) ==>
              var plan := P.PlanTo(targets, stored, b, planClock, |targets|);
              var a := P.Conclude(item, plan.circuit, plan.pending, plan.skipped, fan(plan.pending), ctx, clock);
              a.verdict == P.Verdict(true, false, None)
  {
    hide P.PlanTo, P.DistinctNames, P.Conclude, P.CircuitRefuses, P.AllStored;
    var plan := P.PlanTo(targets, stored, b, planClock, |targets|);
    if LetsThrough(b, targets, planClock) && EveryStoreWorks(fan) {
      P.PlanSkipped(targets, stored, b, planClock, |targets|);
      assert !plan.skipped;
      P.DoneExactly(item, plan.circuit, plan.pending, plan.skipped, fan(plan.pending), ctx, clock);
    }
  }

  /** Whether the backup panics, and if so whether its effects had already happened. */
  datatype Panic = NoPanic | InBackup(late: bool)
}
