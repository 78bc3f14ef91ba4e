/** The whole backup protocol as a step system: outbox, ledger, targets and any number of
concurrent workers, in any number of processes, that may stall, panic or crash anywhere.

A breaker is a parameter of the steps that consult one, not part of the world: processes
have their own, and what is proved here holds whatever they say. */
module Protocol {
  import opened Content
  import Circuit
  import F = Fanout
  import FanoutSafety
  import L = LedgerStore
  import O = OutboxStore
  import P = Pipeline

  datatype Config = Config(hash: Hash, compress: Compressor, cap: nat, targets: seq<P.Target>, lim: O.Limits)

  /** How far one backup of one object has come. */
  datatype Stage =
    | Begun
    | Knows(stored: set<string>)
    | Planned(pending: seq<P.Target>, skipped: bool)
    | Answered(pending: seq<P.Target>, skipped: bool, fan: P.Fan)
    | Finished(verdict: P.Verdict)
    | Panicked

  /** A backup in progress; `row` is None for backfill and reconcile, which claim no row. */
  datatype Worker = Worker(row: Option<O.RowId>, item: P.Item, stage: Stage)

  /** `committed` holds every (key, target, bytes) that a sink has durably committed. */
  datatype World = World(rows: O.Rows, ledger: L.Ledger, committed: set<(Id, string, Bytes)>, workers: map<nat, Worker>)

  datatype Action =
    | Outbox(event: O.Event)
    | Claim(w: nat, id: O.RowId, now: int)
    | Start(w: nat, item: P.Item)
    | Reject(w: nat)
    | ReadStored(w: nat)
    | ReadFault(w: nat)
    | MakePlan(w: nat, breaker: Option<Circuit.Breaker>, clock: nat -> Circuit.Time)
    | FetchFail(w: nat, gone: bool)
    | FanOut(w: nat, buffer: nat, stalls: bool, run: seq<F.Action>)
    | SinkCommits(item: P.Item, pending: seq<P.Target>, buffer: nat, stalls: bool, run: seq<F.Action>)
    | Record(w: nat, breaker: Option<Circuit.Breaker>, ctx: P.Context, clock: nat -> Circuit.Time, now: int, fault: bool)
    | Panic(w: nat)
    | Crash(w: nat)
    | Settle(w: nat, shutdown: bool, jitter: nat, now: int, fault: bool)

  const INITIAL := World(map[], L.EMPTY, {}, map[])

  function JobFor(c: Config, item: P.Item, pending: seq<P.Target>, buffer: nat, stalls: bool): F.Job {
    F.Job(c.hash, c.compress, item.externalID, c.cap, buffer, seq(|pending|, i requires 0 <= i < |pending| => pending[i].codec), stalls)
  }

  /** What a finished fan-out hands back to the pipeline. */
  function FanOf(s: F.State): P.Fan
    requires s.phase.Done?
  {
    P.Fanned(seq(|s.lanes|, i requires 0 <= i < |s.lanes| => P.Result(F.Stored(s, i), StoredBytes(s.lanes[i]))),
             F.VerifiedSize(s), F.SourceError(s).Some?)
  }

  function StoredBytes(l: F.Lane): nat {
    if l.commit.Full? then |l.commit.bytes| else 0
  }

  /** What the sinks of a fan-out have committed. */
  function Commits(id: Id, pending: seq<P.Target>, s: F.State): set<(Id, string, Bytes)>
    requires |s.lanes| == |pending|
  {
    set i | 0 <= i < |pending| && s.lanes[i].commit.Full? :: (id, pending[i].name, s.lanes[i].commit.bytes)
  }

  /** `settle`: how a verdict closes the claimed row. */
  function HowToSettle(v: P.Verdict, shutdown: bool, jitter: nat): O.Settlement {
    if v.done && v.err == None then O.MarkDone
    else if shutdown then O.Release
    else if v.err == Some(P.SourceGone) then O.Skip
    else if v.deferred then O.Defer(jitter)
    else O.Fail
  }

  predicate At(w: World, k: nat) {
    k in w.workers
  }

  function Move(w: World, k: nat, stage: Stage): World
    requires At(w, k)
  {
    w.(workers := w.workers[k := w.workers[k].(stage := stage)])
  }

  /** The ledger after a write that landed, was refused, or was not needed. */
  ghost predicate Wrote(l: L.Ledger, write: Option<(L.ObjectMeta, seq<L.TargetStatus>)>, fault: bool, now: int, l1: L.Ledger) {
    if write.Some? && !fault then L.Recorded(l, write.value.0, write.value.1, now, l1) else l1 == l
  }

  ghost predicate RecordStep(c: Config, w: World, a: Action, w1: World)
    requires a.Record?
  {
    && At(w, a.w) && w.workers[a.w].stage.Answered?
    && var wk := w.workers[a.w];
       (wk.stage.fan.Fanned? ==> |wk.stage.fan.results| == |wk.stage.pending|)
       && var out := P.Conclude(wk.item, a.breaker, wk.stage.pending, wk.stage.skipped, wk.stage.fan, a.ctx, a.clock);
          && Wrote(w.ledger, out.write, a.fault, a.now, w1.ledger)
          && var v := if out.write.Some? && a.fault then P.Verdict(false, false, Some(P.LedgerWrite)) else out.verdict;
             w1 == Move(w, a.w, Finished(v)).(ledger := w1.ledger)
  }

  ghost predicate FanStep(c: Config, w: World, a: Action, w1: World)
    requires a.FanOut?
  {
    && At(w, a.w) && w.workers[a.w].stage.Planned? && a.buffer > 0
    && var wk := w.workers[a.w];
       var job := JobFor(c, wk.item, wk.stage.pending, a.buffer, a.stalls);
       match F.Exec(job, F.Init(job), a.run)
       case None => false
       case Some(s) =>
         && s.phase.Done? && |s.lanes| == |wk.stage.pending|
         && w1 == Move(w, a.w, Answered(wk.stage.pending, wk.stage.skipped, FanOf(s)))
                  .(committed := w.committed + Commits(wk.item.externalID, wk.stage.pending, s))
  }

  /** The commits of a fan-out that has not returned, never will (its process crashed), or has
  returned already and left a store running: any state that any fan-out over configured
  targets can reach. */
  ghost predicate CommitStep(c: Config, w: World, a: Action, w1: World)
    requires a.SinkCommits?
  {
    && FromTargets(c, a.pending) && a.buffer > 0
    && var job := JobFor(c, a.item, a.pending, a.buffer, a.stalls);
       match F.Exec(job, F.Init(job), a.run)
       case None => false
       case Some(s) =>
         |s.lanes| == |a.pending| && w1 == w.(committed := w.committed + Commits(a.item.externalID, a.pending, s))
  }

  ghost predicate Next(c: Config, w: World, a: Action, w1: World) {
    match a
    case Outbox(e) => (e.Enqueue? || e.Reap?) && w1 == w.(rows := O.Apply(c.lim, w.rows, e))
    case Claim(k, id, now) =>
      && !At(w, k) && id in w.rows && O.Claimable(w.rows[id], now)
      && exists size :: w1 == w.(rows := O.Apply(c.lim, w.rows, O.Claim({id}, now)),
                              workers := w.workers[k := Worker(Some(id), P.Item(w.rows[id].externalID, size), Begun)])
    case Start(k, item) => !At(w, k) && w1 == w.(workers := w.workers[k := Worker(None, item, Begun)])
    case Reject(k) =>
      && At(w, k) && w.workers[k].stage.Begun? && (!IsContentHash(w.workers[k].item.externalID) || c.targets == [])
      && w1 == Move(w, k, Finished(P.Verdict(false, false, Some(P.Rejected))))
    case ReadStored(k) =>
      && At(w, k) && w.workers[k].stage.Begun? && IsContentHash(w.workers[k].item.externalID) && c.targets != []
      && w1 == Move(w, k, Knows(L.StoredIn(w.ledger.statuses, w.workers[k].item.externalID)))
    case ReadFault(k) =>
      At(w, k) && w.workers[k].stage.Begun? && w1 == Move(w, k, Finished(P.Verdict(false, false, Some(P.LedgerRead))))
    case MakePlan(k, b, clock) =>
      && At(w, k) && w.workers[k].stage.Knows?
      && var plan := P.PlanTo(c.targets, w.workers[k].stage.stored, b, clock, |c.targets|);
         w1 == Move(w, k, if plan.pending == [] then Finished(P.Verdict(!plan.skipped, plan.skipped, None))
                          else Planned(plan.pending, plan.skipped))
    case FetchFail(k, gone) =>
      && At(w, k) && w.workers[k].stage.Planned?
      && w1 == Move(w, k, Answered(w.workers[k].stage.pending, w.workers[k].stage.skipped, P.FetchFailed(gone)))
    case FanOut(_, _, _, _) => FanStep(c, w, a, w1)
    case SinkCommits(_, _, _, _, _) => CommitStep(c, w, a, w1)
    case Record(_, _, _, _, _, _) => RecordStep(c, w, a, w1)
    case Panic(k) => At(w, k) && w1 == Move(w, k, Panicked)
    case Crash(k) => At(w, k) && w1 == w.(workers := w.workers - {k})
    case Settle(k, shutdown, jitter, now, fault) =>
      && At(w, k) && (w.workers[k].stage.Finished? || w.workers[k].stage.Panicked?)
      && var wk := w.workers[k];
         var how := if wk.stage.Panicked? then O.Fail else HowToSettle(wk.stage.verdict, shutdown, jitter);
         w1 == w.(workers := w.workers - {k},
               rows := if wk.row.Some? && !fault then O.Apply(c.lim, w.rows, O.Settle(wk.row.value, how, now)) else w.rows)
  }

  // ---- the invariant -----------------------------------------------------------------

  /** Target `t` durably holds the encoding of a plaintext that hashes to `id`. */
  ghost predicate Backed(c: Config, committed: set<(Id, string, Bytes)>, id: Id, t: P.Target) {
    exists p :: Verified(c.hash, id, c.cap, p) && (id, t.name, Encode(c.compress, t.codec, p)) in committed
  }

  ghost predicate PlannedFrom(c: Config, l: L.Ledger, id: Id, pending: seq<P.Target>, skipped: bool) {
    exists stored, b, clock ::
      && L.TrueHolders(l, id, stored)
      && P.PlanTo(c.targets, stored, b, clock, |c.targets|) == P.Plan(P.PlanTo(c.targets, stored, b, clock, |c.targets|).circuit, pending, skipped)
  }

  ghost predicate FanBacked(c: Config, committed: set<(Id, string, Bytes)>, item: P.Item, pending: seq<P.Target>, fan: P.Fan) {
    && P.FanTrue(c.hash, item, fan)
    && (fan.Fanned? ==>
      && |fan.results| == |pending|
      && forall i :: 0 <= i < |pending| && fan.results[i].ok ==> Backed(c, committed, item.externalID, pending[i]))
  }

  ghost predicate WorkerOK(c: Config, w: World, wk: Worker) {
    && (wk.row.Some? ==> wk.row.value in w.rows && w.rows[wk.row.value].externalID == wk.item.externalID)
    && match wk.stage
       case Begun => true
       case Knows(stored) => L.TrueHolders(w.ledger, wk.item.externalID, stored)
       case Planned(pending, skipped) => PlannedFrom(c, w.ledger, wk.item.externalID, pending, skipped)
       case Answered(pending, skipped, fan) =>
         PlannedFrom(c, w.ledger, wk.item.externalID, pending, skipped) && FanBacked(c, w.committed, wk.item, pending, fan)
       case Finished(v) => v.done ==> P.StoredEverywhere(w.ledger, wk.item.externalID, c.targets)
       case Panicked => true
  }

  ghost predicate LedgerBacked(c: Config, l: L.Ledger, committed: set<(Id, string, Bytes)>) {
    && (forall id, i :: 0 <= i < |c.targets| && L.IsStored(l, id, c.targets[i].name) ==> Backed(c, committed, id, c.targets[i]))
    && L.StatusesHaveObjects(l) && L.SizesTrue(c.hash, l)
  }

  predicate DoneRowsStored(c: Config, w: World) {
    forall r :: r in w.rows && w.rows[r].status.IsDone? ==> P.StoredEverywhere(w.ledger, w.rows[r].externalID, c.targets)
  }

  /** A committed object is the target's own encoding of a plaintext that hashes to its key. */
  ghost predicate TrueCopy(c: Config, x: (Id, string, Bytes)) {
    exists i, p :: 0 <= i < |c.targets| && c.targets[i].name == x.1 && Verified(c.hash, x.0, c.cap, p)
                && x.2 == Encode(c.compress, c.targets[i].codec, p)
  }

  ghost predicate CommitsTrue(c: Config, committed: set<(Id, string, Bytes)>) {
    forall x :: x in committed ==> TrueCopy(c, x)
  }

  ghost predicate Inv(c: Config, w: World) {
    && LedgerBacked(c, w.ledger, w.committed)
    && CommitsTrue(c, w.committed)
    && DoneRowsStored(c, w)
    && (forall k :: k in w.workers ==> WorkerOK(c, w, w.workers[k]))
  }

  // ---- what only grows -----------------------------------------------------------------

  ghost predicate Grows(w: World, w1: World) {
    && (forall id, n :: L.IsStored(w.ledger, id, n) ==> L.IsStored(w1.ledger, id, n))
    && w.committed <= w1.committed
    && (forall r :: r in w.rows ==> r in w1.rows && w1.rows[r].externalID == w.rows[r].externalID)
  }

  lemma StillStored(w: World, w1: World, id: Id, stored: set<string>)
    requires Grows(w, w1) && L.TrueHolders(w.ledger, id, stored)
    ensures L.TrueHolders(w1.ledger, id, stored)
  {
  }

  lemma WorkerStays(c: Config, w: World, w1: World, wk: Worker)
    requires Grows(w, w1) && WorkerOK(c, w, wk)
    ensures WorkerOK(c, w1, wk)
  {
    hide P.PlanTo, P.FanTrue, L.IsStored;
    var id := wk.item.externalID;
    if wk.stage.Planned? || wk.stage.Answered? {
      assert PlannedFrom(c, w1.ledger, id, wk.stage.pending, wk.stage.skipped) by {
        var stored, b, clock :| L.TrueHolders(w.ledger, id, stored)
          && P.PlanTo(c.targets, stored, b, clock, |c.targets|)
             == P.Plan(P.PlanTo(c.targets, stored, b, clock, |c.targets|).circuit, wk.stage.pending, wk.stage.skipped);
        StillStored(w, w1, id, stored);
      }
    }
    if wk.stage.Answered? {
      forall i | wk.stage.fan.Fanned? && 0 <= i < |wk.stage.pending| && wk.stage.fan.results[i].ok
        ensures Backed(c, w1.committed, id, wk.stage.pending[i])
      {
        StillBacked(c, w, w1, id, wk.stage.pending[i]);
      }
    }
  }

  lemma StillBacked(c: Config, w: World, w1: World, id: Id, t: P.Target)
    requires w.committed <= w1.committed && Backed(c, w.committed, id, t)
    ensures Backed(c, w1.committed, id, t)
  {
    var p :| Verified(c.hash, id, c.cap, p) && (id, t.name, Encode(c.compress, t.codec, p)) in w.committed;
    assert (id, t.name, Encode(c.compress, t.codec, p)) in w1.committed;
  }

  lemma EventKeepsIds(lim: O.Limits, rows: O.Rows, e: O.Event, r: O.RowId)
    requires r in rows
    ensures var rows1 := O.Apply(lim, rows, e);
            && r in rows1 && rows1[r].externalID == rows[r].externalID
            && (rows1[r].status.IsDone? ==> rows[r].status.IsDone? || (e.Settle? && e.id == r && e.how.MarkDone?))
  {
  }

  lemma EventAddsFresh(lim: O.Limits, rows: O.Rows, e: O.Event, r: O.RowId)
    requires r !in rows && r in O.Apply(lim, rows, e)
    ensures O.Apply(lim, rows, e)[r].status.Pending?
  {
  }

  /** An outbox statement keeps the done rows stored, provided it marks done only a row whose
  object is stored everywhere. */
  lemma EventKeepsDone(c: Config, w: World, e: O.Event)
    requires DoneRowsStored(c, w)
    requires e.Settle? && e.how.MarkDone? && e.id in w.rows ==> P.StoredEverywhere(w.ledger, w.rows[e.id].externalID, c.targets)
    ensures DoneRowsStored(c, w.(rows := O.Apply(c.lim, w.rows, e)))
    ensures Grows(w, w.(rows := O.Apply(c.lim, w.rows, e)))
  {
    hide O.Apply, P.StoredEverywhere;
    var rows1 := O.Apply(c.lim, w.rows, e);
    forall r | r in rows1 && rows1[r].status.IsDone? ensures P.StoredEverywhere(w.ledger, rows1[r].externalID, c.targets) {
      if r in w.rows {
        EventKeepsIds(c.lim, w.rows, e, r);
      } else {
        EventAddsFresh(c.lim, w.rows, e, r);
      }
    }
    forall r | r in w.rows ensures r in rows1 && rows1[r].externalID == w.rows[r].externalID {
      EventKeepsIds(c.lim, w.rows, e, r);
    }
  }

  /** The frame of every step: what only grows keeps the other workers, so only the moving
  one needs looking at. */
  lemma MoverDecides(c: Config, w: World, w1: World, k: nat)
    requires Inv(c, w) && Grows(w, w1)
    requires LedgerBacked(c, w1.ledger, w1.committed) && CommitsTrue(c, w1.committed) && DoneRowsStored(c, w1)
    requires forall j :: j in w1.workers && j != k ==> j in w.workers && w1.workers[j] == w.workers[j]
    requires k in w1.workers ==> WorkerOK(c, w1, w1.workers[k])
    ensures Inv(c, w1)
  {
    hide WorkerOK, Grows, LedgerBacked, CommitsTrue;
    forall j | j in w1.workers ensures WorkerOK(c, w1, w1.workers[j]) {
      if j != k {
        WorkerStays(c, w, w1, w.workers[j]);
      }
    }
  }

  /** The fan-out's results, backed by what its sinks committed. */
  lemma FanIsBacked(c: Config, wk: Worker, pending: seq<P.Target>, job: F.Job, s: F.State, committed: set<(Id, string, Bytes)>)
    requires job.hash == c.hash && job.compress == c.compress && job.key == wk.item.externalID && job.cap == c.cap
    requires job.codecs == seq(|pending|, i requires 0 <= i < |pending| => pending[i].codec)
    requires F.Reachable(job, s) && s.phase.Done? && |s.lanes| == |pending|
    requires Commits(wk.item.externalID, pending, s) <= committed
    ensures FanBacked(c, committed, wk.item, pending, FanOf(s))
  {
    hide F.Exec, FanoutSafety.LanePhaseOK, FanoutSafety.LaneDataOK, F.Reachable;
    var fan := FanOf(s);
    FanoutSafety.ReachableInv(job, s);
    assert fan.verified.Some? ==> Verified(job.hash, job.key, job.cap, s.seen);
    forall i | 0 <= i < |pending| && fan.results[i].ok
      ensures fan.verified.Some? && Backed(c, committed, wk.item.externalID, pending[i])
    {
      FanoutSafety.StoredMeansCommitted(job, s, i);
      assert (wk.item.externalID, pending[i].name, s.lanes[i].commit.bytes) in Commits(wk.item.externalID, pending, s);
    }
  }

  /** Everything a fan-out's sinks commit, whatever becomes of it, is a true copy. */
  lemma FanCommitsTrue(c: Config, item: P.Item, pending: seq<P.Target>, job: F.Job, s: F.State)
    requires job.hash == c.hash && job.compress == c.compress && job.key == item.externalID && job.cap == c.cap
    requires job.codecs == seq(|pending|, i requires 0 <= i < |pending| => pending[i].codec)
    requires F.Reachable(job, s) && |s.lanes| == |pending| && FromTargets(c, pending)
    ensures CommitsTrue(c, Commits(item.externalID, pending, s))
  {
    hide F.Exec, F.Reachable;
    forall x | x in Commits(item.externalID, pending, s) ensures TrueCopy(c, x) {
      var i :| 0 <= i < |pending| && s.lanes[i].commit.Full? && x == (item.externalID, pending[i].name, s.lanes[i].commit.bytes);
      FanoutSafety.VerifyThenCommit(job, s, i);
      assert IsTarget(c, pending[i]);
    }
  }

  lemma FanStepKeeps(c: Config, w: World, a: Action, w1: World)
    requires P.DistinctNames(c.targets)
    requires Inv(c, w) && a.FanOut? && FanStep(c, w, a, w1)
    ensures Inv(c, w1)
  {
    hide F.Exec, P.PlanTo, FanBacked, PlannedFrom, L.IsStored, TrueCopy, P.DistinctNames, FromTargets;
    var wk := w.workers[a.w];
    var job := JobFor(c, wk.item, wk.stage.pending, a.buffer, a.stalls);
    var s := F.Exec(job, F.Init(job), a.run).value;
    assert F.Reachable(job, s);
    FanIsBacked(c, wk, wk.stage.pending, job, s, w1.committed);
    PendingIsSound(c, w.ledger, wk.item.externalID, wk.stage.pending, wk.stage.skipped);
    FanCommitsTrue(c, wk.item, wk.stage.pending, job, s);
    forall id, i | 0 <= i < |c.targets| && L.IsStored(w1.ledger, id, c.targets[i].name)
      ensures Backed(c, w1.committed, id, c.targets[i])
    {
      StillBacked(c, w, w1, id, c.targets[i]);
    }
    WorkerStays(c, w, w1, wk);
    MoverDecides(c, w, w1, a.w);
  }

  lemma CommitStepKeeps(c: Config, w: World, a: Action, w1: World)
    requires Inv(c, w) && a.SinkCommits? && CommitStep(c, w, a, w1)
    ensures Inv(c, w1)
  {
    hide F.Exec, L.IsStored, TrueCopy, FromTargets, WorkerOK;
    var job := JobFor(c, a.item, a.pending, a.buffer, a.stalls);
    var s := F.Exec(job, F.Init(job), a.run).value;
    assert F.Reachable(job, s);
    FanCommitsTrue(c, a.item, a.pending, job, s);
    forall id, i | 0 <= i < |c.targets| && L.IsStored(w1.ledger, id, c.targets[i].name)
      ensures Backed(c, w1.committed, id, c.targets[i])
    {
      StillBacked(c, w, w1, id, c.targets[i]);
    }
    if 0 in w.workers {
      WorkerStays(c, w, w1, w.workers[0]);
    }
    MoverDecides(c, w, w1, 0);
  }

  /** The ledger write of a concluded backup: nothing stored is lost, what it adds is backed
  by commits, sizes stay true. */
  lemma WriteKeepsLedger(c: Config, w: World, wk: Worker, out: P.Attempt, a: Action, l1: L.Ledger)
    requires CollisionFree(c.hash) && P.DistinctNames(c.targets) && LedgerBacked(c, w.ledger, w.committed)
    requires a.Record? && wk.stage.Answered? && WorkerOK(c, w, wk)
    requires out == P.Conclude(wk.item, a.breaker, wk.stage.pending, wk.stage.skipped, wk.stage.fan, a.ctx, a.clock)
    requires Wrote(w.ledger, out.write, a.fault, a.now, l1)
    ensures LedgerBacked(c, l1, w.committed)
    ensures forall id, n :: L.IsStored(w.ledger, id, n) ==> L.IsStored(l1, id, n)
  {
    hide P.PlanTo, P.Conclude, L.IsStored, L.Recorded, Backed, L.PipelineWrite, P.FanTrue, P.DistinctNames;
    if out.write.Some? && !a.fault {
      var pending, fan := wk.stage.pending, wk.stage.fan;
      PendingIsSound(c, w.ledger, wk.item.externalID, pending, wk.stage.skipped);
      P.ConcludeWrites(wk.item, a.breaker, pending, wk.stage.skipped, fan, a.ctx, a.clock);
      P.WritesAreTrue(c.hash, wk.item, a.breaker, pending, wk.stage.skipped, fan, a.ctx, a.clock);
      var (obj, rows) := out.write.value;
      L.RecordKeepsSizes(c.hash, w.ledger, obj, rows, a.now, l1);
      forall id, n ensures L.IsStored(l1, id, n) <==> L.IsStored(w.ledger, id, n) || (id == obj.externalID && L.TargetStored(rows, n)) {
        L.RecordKeepsStored(w.ledger, obj, rows, a.now, l1, id, n);
      }
      forall id, i | 0 <= i < |c.targets| && L.IsStored(l1, id, c.targets[i].name) && !L.IsStored(w.ledger, id, c.targets[i].name)
        ensures Backed(c, w.committed, id, c.targets[i])
      {
        assert P.OkFor(pending, fan.results, |pending|, c.targets[i].name);
        var j :| 0 <= j < |pending| && pending[j].name == c.targets[i].name && fan.results[j].ok;
        SameTarget(c, pending, j, i);
      }
    }
  }

  /** Pending targets are configured ones. */
  ghost predicate FromTargets(c: Config, pending: seq<P.Target>) {
    forall j :: 0 <= j < |pending| ==> IsTarget(c, pending[j])
  }

  ghost predicate IsTarget(c: Config, t: P.Target) {
    exists i :: 0 <= i < |c.targets| && c.targets[i] == t
  }

  lemma PendingIsSound(c: Config, l: L.Ledger, id: Id, pending: seq<P.Target>, skipped: bool)
    requires P.DistinctNames(c.targets) && PlannedFrom(c, l, id, pending, skipped)
    ensures P.DistinctNames(pending) && FromTargets(c, pending)
  {
    hide P.PlanTo, L.IsStored;
    var stored, b, clock :| L.TrueHolders(l, id, stored)
      && P.PlanTo(c.targets, stored, b, clock, |c.targets|)
         == P.Plan(P.PlanTo(c.targets, stored, b, clock, |c.targets|).circuit, pending, skipped);
    P.PlanDecides(c.targets, stored, b, clock, |c.targets|);
    forall j | 0 <= j < |pending| ensures IsTarget(c, pending[j]) {
      assert pending[j] in pending;
    }
  }

  lemma SameTarget(c: Config, pending: seq<P.Target>, j: nat, i: nat)
    requires P.DistinctNames(c.targets) && FromTargets(c, pending)
    requires j < |pending| && i < |c.targets| && pending[j].name == c.targets[i].name
    ensures pending[j] == c.targets[i]
  {
  }

  lemma RecordStepKeeps(c: Config, w: World, a: Action, w1: World)
    requires CollisionFree(c.hash) && P.DistinctNames(c.targets)
    requires Inv(c, w) && a.Record? && RecordStep(c, w, a, w1)
    ensures Inv(c, w1)
  {
    hide P.PlanTo, P.Conclude, FanBacked, L.IsStored, P.DistinctNames, LedgerBacked, CommitsTrue;
    var wk := w.workers[a.w];
    var out := P.Conclude(wk.item, a.breaker, wk.stage.pending, wk.stage.skipped, wk.stage.fan, a.ctx, a.clock);
    WriteKeepsLedger(c, w, wk, out, a, w1.ledger);
    if out.verdict.done && !(out.write.Some? && a.fault) {
      FinishedMeansStored(c, w, wk, out, a, w1.ledger);
    }
    MoverDecides(c, w, w1, a.w);
  }

  lemma FinishedMeansStored(c: Config, w: World, wk: Worker, out: P.Attempt, a: Action, l1: L.Ledger)
    requires P.DistinctNames(c.targets)
    requires a.Record? && wk.stage.Answered? && WorkerOK(c, w, wk)
    requires out == P.Conclude(wk.item, a.breaker, wk.stage.pending, wk.stage.skipped, wk.stage.fan, a.ctx, a.clock)
    requires Wrote(w.ledger, out.write, a.fault, a.now, l1) && out.verdict.done && !(out.write.Some? && a.fault)
    ensures P.StoredEverywhere(l1, wk.item.externalID, c.targets)
  {
    hide P.PlanTo, P.Conclude, P.FanTrue, L.IsStored, P.DistinctNames, L.Recorded;
    var stored, b, clock :| L.TrueHolders(w.ledger, wk.item.externalID, stored)
      && P.PlanTo(c.targets, stored, b, clock, |c.targets|)
         == P.Plan(P.PlanTo(c.targets, stored, b, clock, |c.targets|).circuit, wk.stage.pending, wk.stage.skipped);
    P.DoneMeansStored(c.targets, stored, b, clock, wk.item, a.breaker, wk.stage.fan, a.ctx, a.clock, w.ledger, a.now, l1);
  }

  lemma PlanStepKeeps(c: Config, w: World, a: Action, w1: World)
    requires P.DistinctNames(c.targets)
    requires Inv(c, w) && a.MakePlan? && Next(c, w, a, w1)
    ensures Inv(c, w1)
  {
    hide P.PlanTo, L.IsStored, LedgerBacked, CommitsTrue, P.DistinctNames;
    var wk := w.workers[a.w];
    var id := wk.item.externalID;
    var plan := P.PlanTo(c.targets, wk.stage.stored, a.breaker, a.clock, |c.targets|);
    if plan.pending == [] && !plan.skipped {
      var none := P.FetchFailed(false);
      P.DoneExactly(wk.item, None, plan.pending, plan.skipped, none, P.Live, a.clock);
      P.DoneMeansStored(c.targets, wk.stage.stored, a.breaker, a.clock, wk.item, None, none, P.Live, a.clock, w.ledger, 0, w.ledger);
    }
    assert PlannedFrom(c, w.ledger, id, plan.pending, plan.skipped);
    MoverDecides(c, w, w1, a.w);
  }

  lemma SettleStepKeeps(c: Config, w: World, a: Action, w1: World)
    requires Inv(c, w) && a.Settle? && Next(c, w, a, w1)
    ensures Inv(c, w1)
  {
    hide L.IsStored, LedgerBacked, CommitsTrue, O.Apply;
    var wk := w.workers[a.w];
    var how := if wk.stage.Panicked? then O.Fail else HowToSettle(wk.stage.verdict, a.shutdown, a.jitter);
    if wk.row.Some? && !a.fault {
      EventKeepsDone(c, w, O.Settle(wk.row.value, how, a.now));
    }
    MoverDecides(c, w, w1, a.w);
  }

  lemma OutboxStepKeeps(c: Config, w: World, a: Action, w1: World)
    requires Inv(c, w) && Next(c, w, a, w1) && (a.Outbox? || a.Claim?)
    ensures Inv(c, w1)
  {
    hide LedgerBacked, CommitsTrue, O.Apply, L.IsStored;
    if a.Outbox? {
      EventKeepsDone(c, w, a.event);
      if 0 in w.workers {
        WorkerStays(c, w, w1, w.workers[0]);
      }
      MoverDecides(c, w, w1, 0);
    } else {
      EventKeepsDone(c, w, O.Claim({a.id}, a.now));
      EventKeepsIds(c.lim, w.rows, O.Claim({a.id}, a.now), a.id);
      MoverDecides(c, w, w1, a.w);
    }
  }

  lemma QuietStepKeeps(c: Config, w: World, a: Action, w1: World)
    requires Inv(c, w) && Next(c, w, a, w1)
    requires !a.FanOut? && !a.Record? && !a.MakePlan? && !a.Settle? && !a.Outbox? && !a.Claim? && !a.SinkCommits?
    ensures Inv(c, w1)
  {
    hide LedgerBacked, CommitsTrue, O.Apply, P.PlanTo, P.Conclude, F.Exec;
    MoverDecides(c, w, w1, a.w);
  }

  lemma StepKeeps(c: Config, w: World, a: Action, w1: World)
    requires CollisionFree(c.hash) && P.DistinctNames(c.targets)
    requires Inv(c, w) && Next(c, w, a, w1)
    ensures Inv(c, w1)
  {
    hide Inv, FanStep, RecordStep, CommitStep;
    if a.FanOut? {
      FanStepKeeps(c, w, a, w1);
    } else if a.Record? {
      RecordStepKeeps(c, w, a, w1);
    } else if a.MakePlan? {
      PlanStepKeeps(c, w, a, w1);
    } else if a.Settle? {
      SettleStepKeeps(c, w, a, w1);
    } else if a.SinkCommits? {
      CommitStepKeeps(c, w, a, w1);
    } else if a.Outbox? || a.Claim? {
      OutboxStepKeeps(c, w, a, w1);
    } else {
      QuietStepKeeps(c, w, a, w1);
    }
  }

  // ---- every run ---------------------------------------------------------------------

  /** A run of the whole system from the empty world. */
  ghost predicate Run(c: Config, trace: seq<World>, acts: seq<Action>) {
    && |trace| == |acts| + 1 && trace[0] == INITIAL
    && forall k :: 0 <= k < |acts| ==> Next(c, trace[k], acts[k], trace[k + 1])
  }

  lemma {:induction false} RunKeeps(c: Config, trace: seq<World>, acts: seq<Action>, k: nat)
    requires CollisionFree(c.hash) && P.DistinctNames(c.targets)
    requires Run(c, trace, acts) && k < |trace|
    ensures Inv(c, trace[k])
  {
    hide Next;
    if k == 0 {
      assert Inv(c, INITIAL);
    } else {
      RunKeeps(c, trace, acts, k - 1);
      StepKeeps(c, trace[k - 1], acts[k - 1], trace[k]);
    }
  }

  /** Target `t` holds exactly the encoding of `p` among everything committed under `id`. */
  predicate Holds(c: Config, w: World, id: Id, t: P.Target, p: Bytes) {
    (id, t.name, Encode(c.compress, t.codec, p)) in w.committed
  }

  /** At every point of every run a stored record of a configured target is true: the target has
  durably committed its own encoding of a plaintext that hashes to the key and fits the cap,
  and the object's recorded size is that plaintext's length. */
  lemma StoredMeansBackedUp(c: Config, trace: seq<World>, acts: seq<Action>, k: nat, id: Id, i: nat)
    requires CollisionFree(c.hash) && P.DistinctNames(c.targets)
    requires Run(c, trace, acts) && k < |trace| && i < |c.targets| && L.IsStored(trace[k].ledger, id, c.targets[i].name)
    ensures var w := trace[k];
            exists p :: Verified(c.hash, id, c.cap, p) && Holds(c, w, id, c.targets[i], p)
                     && id in w.ledger.objects && w.ledger.objects[id] == |p|
  {
    hide Run, WorkerOK, L.IsStored, CommitsTrue, DoneRowsStored;
    RunKeeps(c, trace, acts, k);
    var w := trace[k];
    var p :| Verified(c.hash, id, c.cap, p) && Holds(c, w, id, c.targets[i], p);
    assert id in w.ledger.objects && w.ledger.objects[id] == |p|;
  }

  /** The promise of the whole service. At every point of every run, with any number of
  concurrent, stale, panicking or crashed workers, a done row means that one plaintext with
  that hash exists, every configured target has durably committed it under its own codec,
  the ledger says so, and the recorded size is its length. */
  lemma DoneMeansBackedUp(c: Config, trace: seq<World>, acts: seq<Action>, k: nat, r: O.RowId)
    requires CollisionFree(c.hash) && P.DistinctNames(c.targets) && c.targets != []
    requires Run(c, trace, acts) && k < |trace|
    requires r in trace[k].rows && trace[k].rows[r].status.IsDone?
    ensures var w := trace[k];
            var id := w.rows[r].externalID;
            exists p :: Verified(c.hash, id, c.cap, p) && id in w.ledger.objects && w.ledger.objects[id] == |p|
                     && forall i :: 0 <= i < |c.targets| ==>
                          L.IsStored(w.ledger, id, c.targets[i].name) && Holds(c, w, id, c.targets[i], p)
  {
    hide Run, WorkerOK, L.IsStored;
    RunKeeps(c, trace, acts, k);
    var w := trace[k];
    var id := w.rows[r].externalID;
    assert P.StoredEverywhere(w.ledger, id, c.targets);
    assert L.IsStored(w.ledger, id, c.targets[0].name);
    var p :| Verified(c.hash, id, c.cap, p) && Holds(c, w, id, c.targets[0], p);
    forall i | 0 <= i < |c.targets| ensures L.IsStored(w.ledger, id, c.targets[i].name) && Holds(c, w, id, c.targets[i], p) {
      var q :| Verified(c.hash, id, c.cap, q) && Holds(c, w, id, c.targets[i], q);
      assert p == q;
    }
  }

  /** Nothing is ever un-stored or un-committed, and no row loses its object. */
  lemma NothingIsLost(c: Config, w: World, a: Action, w1: World)
    requires CollisionFree(c.hash) && P.DistinctNames(c.targets)
    requires Inv(c, w) && Next(c, w, a, w1)
    ensures Grows(w, w1)
  {
    hide LedgerBacked, O.Apply, L.IsStored, P.Conclude, F.Exec, P.PlanTo, WorkerOK;
    if a.Record? {
      var wk := w.workers[a.w];
      var out := P.Conclude(wk.item, a.breaker, wk.stage.pending, wk.stage.skipped, wk.stage.fan, a.ctx, a.clock);
      WriteKeepsLedger(c, w, wk, out, a, w1.ledger);
    } else if a.Outbox? {
      EventKeepsDone(c, w, a.event);
    } else if a.Claim? {
      EventKeepsDone(c, w, O.Claim({a.id}, a.now));
    } else if a.Settle? {
      var wk := w.workers[a.w];
      if wk.row.Some? && !a.fault {
        var how := if wk.stage.Panicked? then O.Fail else HowToSettle(wk.stage.verdict, a.shutdown, a.jitter);
        forall r | r in w.rows ensures r in w1.rows && w1.rows[r].externalID == w.rows[r].externalID {
          EventKeepsIds(c.lim, w.rows, O.Settle(wk.row.value, how, a.now), r);
        }
      }
    }
  }

  /** Re-storing is harmless: over a whole run, two commits of one object to one target,
  by whichever workers and however late, are byte for byte the same. */
  lemma OverwritesAreIdentical(c: Config, trace: seq<World>, acts: seq<Action>, k: nat, x: (Id, string, Bytes), y: (Id, string, Bytes))
    requires CollisionFree(c.hash) && P.DistinctNames(c.targets)
    requires Run(c, trace, acts) && k < |trace|
    requires x in trace[k].committed && y in trace[k].committed && x.0 == y.0 && x.1 == y.1
    ensures x == y
  {
    hide Run, WorkerOK, LedgerBacked, Next;
    RunKeeps(c, trace, acts, k);
    assert TrueCopy(c, x) && TrueCopy(c, y);
  }
}
