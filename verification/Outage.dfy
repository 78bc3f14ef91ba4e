/** One target failing every store, all others storing whatever they are sent in full: how many
attempts the outage can cost, over all interleavings of one process's workers. An attempt
whose outcomes reach the breaker is told apart from one that is cut off before they do. */
module Outage {
  import opened Content
  import C = Circuit
  import Leases
  import O = OutboxStore
  import Order
  import P = Pipeline
  import Protocol

  function Failures(n: nat): (r: seq<bool>)
    ensures |r| == n
  {
    seq(n, _ => false)
  }

  lemma {:induction false} FailsOfFailures(n: nat)
    ensures C.Fails(Failures(n)) == n
  {
    if n > 0 {
      assert Failures(n)[..n - 1] == Failures(n - 1);
      FailsOfFailures(n - 1);
    }
  }

  /** Threshold failures in a row trip the breaker, whatever came before them. */
  lemma FailuresTrip(threshold: nat, h: seq<bool>, n: nat)
    requires threshold > 0 && n >= threshold
    ensures C.Tripped(threshold, h + Failures(n))
  {
    var w := C.Last(h + Failures(n), 2 * threshold);
    var m := if n < 2 * threshold then n else 2 * threshold;
    var a := w[..|w| - m];
    assert w == a + Failures(m);
    C.FailsConcat(a, Failures(m));
    FailsOfFailures(m);
  }

  /** From an empty window it takes exactly threshold of them. */
  lemma FreshTripsExactly(threshold: nat, n: nat)
    requires threshold > 0
    ensures C.Tripped(threshold, Failures(n)) <==> n >= threshold
  {
    if n >= threshold {
      FailuresTrip(threshold, [], n);
      assert [] + Failures(n) == Failures(n);
    } else {
      assert C.Last(Failures(n), 2 * threshold) == Failures(n);
      FailsOfFailures(n);
    }
  }

  /** What the pipeline and the consumer make of an attempt in which only `t` failed, whatever
  the breaker says at classification: the row is deferred when t's circuit is open there, and
  charged otherwise. */
  lemma OnlyOneTargetFailed(item: P.Item, b: Option<C.Breaker>, pending: seq<P.Target>, skipped: bool, fan: P.Fan, t: string, jitter: nat)
    requires fan.Fanned? && |fan.results| == |pending|
    requires forall i :: 0 <= i < |pending| ==> (fan.results[i].ok <==> pending[i].name != t)
    requires exists i :: 0 <= i < |pending| && pending[i].name == t
    ensures Protocol.HowToSettle(P.Judge(item, b, pending, skipped, fan).verdict, false, jitter)
            == if P.CircuitDown(b, t) then O.Defer(jitter) else O.Fail
  {
    hide P.Rows;
  }

  /** What folding a whole attempt does to a target that failed in it: one recorded failure,
  whatever the other targets recorded, so the pipeline's fold is one `Fold` step below. */
  lemma {:induction false} FoldIsOneFailure(b: C.Breaker, pending: seq<P.Target>, results: seq<P.Result>, clock: nat -> C.Time, i: nat, h: seq<bool>)
    requires i < |pending| == |results| && P.DistinctNames(pending) && !results[i].ok
    requires b.threshold > 0 && C.Tracks(b, pending[i].name, h)
    ensures var c := P.RecordAll(Some(b), pending, results, clock, |pending|);
            c.Some? && C.Tracks(c.value, pending[i].name, h + [false])
  {
    hide P.RecordAll, C.AfterRecord, C.Tripped, C.Last;
    P.RecordAllEach(b, pending, results, clock, |pending|, i);
    P.RecordAllSettings(b, pending, results, clock, |pending|);
    P.RecordSettings(b, pending[i].name, false, clock(i));
    C.RecordTracks(b, pending[i].name, false, clock(i), h);
  }

  /** Some pending target other than `t` has a closed circuit. */
  predicate OthersClosed(b: Option<C.Breaker>, pending: seq<P.Target>, t: string) {
    exists i :: 0 <= i < |pending| && pending[i].name != t && !P.CircuitDown(b, pending[i].name)
  }

  /** An attempt cut off by its deadline before the stream verified stored nowhere, so it folds
  nothing and every pending target counts as failed: it is charged exactly when t's circuit
  or that of any other pending target is closed. In particular it is charged with t's circuit
  open if and only if some other pending target's is closed. */
  lemma CutOffCharged(hash: Hash, item: P.Item, b: Option<C.Breaker>, pending: seq<P.Target>, skipped: bool, fan: P.Fan,
                      clock: nat -> C.Time, t: string, jitter: nat)
    requires fan.Fanned? && |fan.results| == |pending| && fan.ferr && fan.verified.None? && P.FanTrue(hash, item, fan)
    requires exists i :: 0 <= i < |pending| && pending[i].name == t
    ensures var a := P.Conclude(item, b, pending, skipped, fan, P.DeadlineExceeded, clock);
            && a.circuit == b && a.write == None
            && Protocol.HowToSettle(a.verdict, false, jitter)
               == if OthersClosed(b, pending, t) || !P.CircuitDown(b, t) then O.Fail else O.Defer(jitter)
  {
    hide P.RecordAll, P.Rows;
    NoRows(b, pending, fan.results, |pending|);
  }

  lemma {:induction false} NoRows(b: Option<C.Breaker>, pending: seq<P.Target>, results: seq<P.Result>, k: nat)
    requires k <= |pending| == |results| && forall i :: 0 <= i < |results| ==> !results[i].ok
    ensures P.Rows(b, pending, results, true, k) == []
  {
    if k > 0 {
      NoRows(b, pending, results, k - 1);
    }
  }

  // ---- consecutive backups -------------------------------------------------------------

  /** One call of the pipeline: what it was given and how its fan-out ended. */
  datatype Backup = Backup(targets: seq<P.Target>, stored: set<string>, planClock: nat -> C.Time, item: P.Item,
                           fan: P.Fan, ctx: P.Context, clock: nat -> C.Time)

  function PlanOf(b: C.Breaker, x: Backup): P.Plan {
    P.PlanTo(x.targets, x.stored, Some(b), x.planClock, |x.targets|)
  }

  /** The breaker such a call leaves. */
  ghost predicate LeavesBreaker(b: C.Breaker, x: Backup, b1: C.Breaker) {
    var plan := PlanOf(b, x);
    && P.DistinctNames(x.targets) && (x.fan.Fanned? ==> |x.fan.results| == |plan.pending|)
    && P.Conclude(x.item, plan.circuit, plan.pending, plan.skipped, x.fan, x.ctx, x.clock).circuit == Some(b1)
  }

  /** Target `t` was fanned to and failed, in an attempt that ran to its end or to its deadline
  with the stream verified. */
  ghost predicate FailedIn(b: C.Breaker, x: Backup, t: string) {
    var plan := PlanOf(b, x);
    && x.fan.Fanned? && |x.fan.results| == |plan.pending| && (!x.fan.ferr || (x.ctx.DeadlineExceeded? && x.fan.verified.Some?))
    && exists i :: 0 <= i < |plan.pending| && plan.pending[i].name == t && !x.fan.results[i].ok
  }

  /** Planning leaves every window and every open entry in place. */
  lemma PlanTracks(b: C.Breaker, x: Backup, t: string, h: seq<bool>)
    requires C.Tracks(b, t, h)
    ensures var c := PlanOf(b, x).circuit; c.Some? && c.value.threshold == b.threshold && C.Tracks(c.value, t, h)
  {
    hide P.PlanTo, C.Tripped, C.Last;
    P.PlanAsksOnly(x.targets, x.stored, Some(b), x.planClock, |x.targets|);
  }

  lemma {:induction false} FailedBackupTracks(b: C.Breaker, x: Backup, b1: C.Breaker, t: string, h: seq<bool>)
    requires b.threshold > 0 && C.Tracks(b, t, h) && LeavesBreaker(b, x, b1) && FailedIn(b, x, t)
    ensures b1.threshold == b.threshold && C.Tracks(b1, t, h + [false])
  {
    hide P.PlanTo, P.Conclude, C.Tracks, P.DistinctNames;
    var plan := PlanOf(b, x);
    PlanTracks(b, x, t, h);
    P.PlanPending(x.targets, x.stored, Some(b), x.planClock, |x.targets|);
    var i :| 0 <= i < |plan.pending| && plan.pending[i].name == t && !x.fan.results[i].ok;
    P.ConcludeFolds(x.item, plan.circuit.value, plan.pending, plan.skipped, x.fan, x.ctx, x.clock, i, h);
  }

  ghost predicate Backups(trace: seq<C.Breaker>, calls: seq<Backup>) {
    |trace| == |calls| + 1 && forall k :: 0 <= k < |calls| ==> LeavesBreaker(trace[k], calls[k], trace[k + 1])
  }

  lemma {:induction false} BackupsTrack(trace: seq<C.Breaker>, calls: seq<Backup>, t: string, h: seq<bool>, k: nat)
    requires Backups(trace, calls) && k <= |calls| && trace[0].threshold > 0 && C.Tracks(trace[0], t, h)
    requires forall j :: 0 <= j < k ==> FailedIn(trace[j], calls[j], t)
    ensures trace[k].threshold == trace[0].threshold && C.Tracks(trace[k], t, h + Failures(k))
  {
    hide C.Tracks, LeavesBreaker, FailedIn;
    if k == 0 {
      assert h + Failures(0) == h;
    } else {
      BackupsTrack(trace, calls, t, h, k - 1);
      assert LeavesBreaker(trace[k - 1], calls[k - 1], trace[k - 1 + 1]);
      FailedBackupTracks(trace[k - 1], calls[k - 1], trace[k], t, h + Failures(k - 1));
      assert h + Failures(k - 1) + [false] == h + Failures(k);
    }
  }

  /** From any reachable breaker, threshold consecutive backups in which `t` fails leave its
  circuit open, whatever they were backups of and whatever the other targets did. */
  lemma FailingBackupsOpen(threshold: int, cooldown: int, before: seq<C.Call>, trace: seq<C.Breaker>, calls: seq<Backup>, t: string)
    requires Backups(trace, calls) && trace[0] == C.Run(C.New(threshold, cooldown), before) && |calls| >= trace[0].threshold
    requires forall j :: 0 <= j < |calls| ==> FailedIn(trace[j], calls[j], t)
    ensures C.IsDown(trace[|calls|], t)
  {
    hide C.Run, LeavesBreaker, FailedIn;
    var h := ReachableTracks(t, threshold, cooldown, before);
    BackupsTrack(trace, calls, t, h, |calls|);
    FailuresTrip(trace[0].threshold, h, |calls|);
  }

  // ---- the outage as a step system -------------------------------------------------

  /** Where an attempt that fanned to the failing target stands. */
  datatype Progress = Flying | Folded | Judged(fail: bool, folded: bool)

  datatype Attempt = Attempt(row: O.RowId, at: Progress)

  /** `folds` counts outcomes of the failing target that reached the breaker, `charged` verdicts
  of Fail, `aborts` those of them that were judged without a fold. `applied` counts the Fail
  statements of folded attempts, `aborted` those of unfolded ones, row by row. */
  datatype World = World(b: C.Breaker, rows: O.Rows, attempts: map<nat, Attempt>, folds: nat, charged: nat, aborts: nat,
                         applied: nat, aborted: multiset<O.RowId>)

  datatype Step =
    | Ask(c: C.Call)
    | Outbox(e: O.Event)
    | Begin(k: nat, row: O.RowId)
    | Fold(k: nat, now: C.Time)
    | Classify(k: nat)
    | Abort(k: nat, others: bool)
    | Settle(k: nat, jitter: nat, now: int)
    | Elsewhere(row: O.RowId, how: O.Settlement, now: int)
    | Crash(k: nat)

  function Put(w: World, k: nat, at: Progress): World
    requires k in w.attempts
  {
    w.(attempts := w.attempts[k := w.attempts[k].(at := at)])
  }

  function Settled(lim: O.Limits, w: World, k: nat, jitter: nat, now: int): World
    requires k in w.attempts && w.attempts[k].at.Judged?
  {
    var Attempt(row, at) := w.attempts[k];
    w.(rows := O.Apply(lim, w.rows, O.Settle(row, if at.fail then O.Fail else O.Defer(jitter), now)),
    attempts := w.attempts - {k},
    applied := w.applied + Bit(at.fail && at.folded),
    aborted := if at.fail && !at.folded then w.aborted + multiset{row} else w.aborted)
  }

  /** None when the step is not enabled. `t` is the failing target: no success of it is ever
  recorded, every other breaker call and every other settlement is free. `Abort` is the
  attempt that is judged without its outcome reaching the breaker; `others` says whether some
  other target it had pending has a closed circuit. */
  function Next(lim: O.Limits, t: string, w: World, s: Step): Option<World> {
    match s
    case Ask(c) => if c.OpenAt? || c.target != t then Some(w.(b := C.Next(w.b, c))) else None
    case Outbox(e) => if e.Settle? then None else Some(w.(rows := O.Apply(lim, w.rows, e)))
    case Begin(k, row) => if k in w.attempts then None else Some(w.(attempts := w.attempts[k := Attempt(row, Flying)]))
    case Fold(k, now) =>
      if k in w.attempts && w.attempts[k].at.Flying? then
        Some(Put(w, k, Folded).(b := C.AfterRecord(w.b, t, false, now), folds := w.folds + 1))
      else None
    case Classify(k) =>
      if k in w.attempts && w.attempts[k].at.Folded? then
        var fail := !C.IsDown(w.b, t);
        Some(Put(w, k, Judged(fail, true)).(charged := w.charged + Bit(fail)))
      else None
    case Abort(k, others) =>
      if k in w.attempts && w.attempts[k].at.Flying? then
        var fail := others || !C.IsDown(w.b, t);
        Some(Put(w, k, Judged(fail, false)).(charged := w.charged + Bit(fail), aborts := w.aborts + Bit(fail)))
      else None
    case Settle(k, jitter, now) =>
      if k in w.attempts && w.attempts[k].at.Judged? then Some(Settled(lim, w, k, jitter, now)) else None
    case Elsewhere(row, how, now) =>
      if how.Fail? then None else Some(w.(rows := O.Apply(lim, w.rows, O.Settle(row, how, now))))
    case Crash(k) => Some(w.(attempts := w.attempts - {k}))
  }

  function FoldedSet(w: World): set<nat> {
    set k | k in w.attempts && w.attempts[k].at.Folded?
  }

  /** The folded attempts whose Fail is still to be sent. */
  function ToFail(w: World): set<nat> {
    set k | k in w.attempts && w.attempts[k].at == Judged(true, true)
  }

  /** The state in which the outage begins: any breaker, any rows, any attempts that have not
  been judged or folded yet. */
  predicate Begins(w: World) {
    && w.folds == 0 && w.charged == 0 && w.aborts == 0 && w.applied == 0 && w.aborted == multiset{}
    && forall k :: k in w.attempts ==> w.attempts[k].at.Flying?
  }

  predicate Inv(t: string, h: seq<bool>, w: World) {
    && w.b.threshold > 0
    && C.Tracks(w.b, t, h + Failures(w.folds))
    && w.charged + |FoldedSet(w)| <= w.folds + w.aborts
    && w.charged < w.b.threshold + w.aborts
    && w.applied + |ToFail(w)| + w.aborts <= w.charged
  }

  lemma BeginInv(t: string, h: seq<bool>, w: World)
    requires Begins(w) && w.b.threshold > 0 && C.Tracks(w.b, t, h)
    ensures Inv(t, h, w)
  {
    hide C.Tracks;
    assert h + Failures(0) == h;
    assert FoldedSet(w) == {} && ToFail(w) == {};
  }

  /** What moving an attempt to another stage does to the two sets. */
  lemma Counts(w: World, k: nat, at: Progress)
    requires k in w.attempts
    ensures FoldedSet(Put(w, k, at)) == (if at.Folded? then FoldedSet(w) + {k} else FoldedSet(w) - {k})
    ensures ToFail(Put(w, k, at)) == (if at == Judged(true, true) then ToFail(w) + {k} else ToFail(w) - {k})
  {
  }

  lemma RunOne(b: C.Breaker, c: C.Call)
    ensures C.Run(b, [c]) == C.Next(b, c)
  {
    assert C.Run(b, [c][..0]) == b;
  }

  lemma FoldKeeps(t: string, h: seq<bool>, w: World, k: nat, now: C.Time)
    requires Inv(t, h, w) && k in w.attempts && w.attempts[k].at.Flying?
    ensures Inv(t, h, Put(w, k, Folded).(b := C.AfterRecord(w.b, t, false, now), folds := w.folds + 1))
  {
    hide C.Tracks, C.AfterRecord, FoldedSet, ToFail;
    Counts(w, k, Folded);
    FlyingOutside(w, k);
    C.RecordTracks(w.b, t, false, now, h + Failures(w.folds));
    assert h + Failures(w.folds) + [false] == h + Failures(w.folds + 1);
    P.RecordSettings(w.b, t, false, now);
    SetsOfAttempts(Put(w, k, Folded), Put(w, k, Folded).(b := C.AfterRecord(w.b, t, false, now), folds := w.folds + 1));
  }

  lemma FlyingOutside(w: World, k: nat)
    requires k in w.attempts && w.attempts[k].at.Flying?
    ensures k !in FoldedSet(w) && k !in ToFail(w)
  {
  }

  lemma SetsOfAttempts(w: World, w1: World)
    requires w1.attempts == w.attempts
    ensures FoldedSet(w1) == FoldedSet(w) && ToFail(w1) == ToFail(w)
  {
  }

  /** A folded attempt is charged only while fewer than threshold failures have been folded. */
  lemma ClassifyKeeps(t: string, h: seq<bool>, w: World, k: nat)
    requires Inv(t, h, w) && k in w.attempts && w.attempts[k].at.Folded?
    ensures var fail := !C.IsDown(w.b, t);
            Inv(t, h, Put(w, k, Judged(fail, true)).(charged := w.charged + Bit(fail)))
  {
    hide FoldedSet, ToFail, C.Tripped;
    var fail := !C.IsDown(w.b, t);
    Counts(w, k, Judged(fail, true));
    assert k in FoldedSet(w) && k !in ToFail(w) by { FoldedInside(w, k); }
    if fail && w.folds >= w.b.threshold {
      FailuresTrip(w.b.threshold, h, w.folds);
      assert false;
    }
    SetsOfAttempts(Put(w, k, Judged(fail, true)), Put(w, k, Judged(fail, true)).(charged := w.charged + Bit(fail)));
  }

  lemma FoldedInside(w: World, k: nat)
    requires k in w.attempts && w.attempts[k].at.Folded?
    ensures k in FoldedSet(w) && k !in ToFail(w)
  {
  }

  /** An unfolded attempt is charged on its own account. */
  lemma AbortKeeps(t: string, h: seq<bool>, w: World, k: nat, fail: bool)
    requires Inv(t, h, w) && k in w.attempts && w.attempts[k].at.Flying?
    ensures Inv(t, h, Put(w, k, Judged(fail, false)).(charged := w.charged + Bit(fail), aborts := w.aborts + Bit(fail)))
  {
    hide FoldedSet, ToFail, C.Tracks, C.IsDown;
    Counts(w, k, Judged(fail, false));
    FlyingOutside(w, k);
    SetsOfAttempts(Put(w, k, Judged(fail, false)),
                   Put(w, k, Judged(fail, false)).(charged := w.charged + Bit(fail), aborts := w.aborts + Bit(fail)));
  }

  lemma AskKeeps(t: string, h: seq<bool>, w: World, c: C.Call)
    requires Inv(t, h, w) && (c.OpenAt? || c.target != t)
    ensures Inv(t, h, w.(b := C.Next(w.b, c))) && C.Next(w.b, c).threshold == w.b.threshold
    ensures C.IsDown(w.b, t) <==> C.IsDown(C.Next(w.b, c), t)
  {
    hide C.Next, C.Tripped, FoldedSet, ToFail;
    C.OthersTracked(w.b, c, t, h + Failures(w.folds));
    C.SettingsFixed(w.b, [c]);
    RunOne(w.b, c);
    SetsOfAttempts(w, w.(b := C.Next(w.b, c)));
  }

  lemma FoldStaysDown(t: string, h: seq<bool>, w: World, now: C.Time)
    requires Inv(t, h, w)
    ensures var b1 := C.AfterRecord(w.b, t, false, now); b1.threshold == w.b.threshold && (C.IsDown(w.b, t) ==> C.IsDown(b1, t))
  {
    hide C.AfterRecord, C.Tripped;
    P.RecordSettings(w.b, t, false, now);
    C.RecordTracks(w.b, t, false, now, h + Failures(w.folds));
    C.TrippedAppend(w.b.threshold, h + Failures(w.folds), false);
  }

  /** A step that keeps the breaker and the verdicts, and whose attempts changed only so far. */
  lemma CountsDecide(t: string, h: seq<bool>, w: World, w1: World)
    requires Inv(t, h, w) && w1.b == w.b && w1.folds == w.folds && w1.charged == w.charged && w1.aborts == w.aborts
    requires FoldedSet(w1) <= FoldedSet(w)
    requires w1.applied + |ToFail(w1)| <= w.applied + |ToFail(w)|
    ensures Inv(t, h, w1)
  {
    hide C.Tracks, FoldedSet, ToFail;
    Order.SubsetSize(FoldedSet(w1), FoldedSet(w));
  }

  lemma SettleKeeps(lim: O.Limits, t: string, h: seq<bool>, w: World, k: nat, jitter: nat, now: int)
    requires Inv(t, h, w) && k in w.attempts && w.attempts[k].at.Judged?
    ensures Inv(t, h, Settled(lim, w, k, jitter, now))
  {
    hide O.Apply, C.Tracks, Inv;
    var w1 := Settled(lim, w, k, jitter, now);
    assert ToFail(w1) == ToFail(w) - {k};
    if w.attempts[k].at == Judged(true, true) {
      assert k in ToFail(w);
    } else {
      assert ToFail(w1) == ToFail(w);
    }
    CountsDecide(t, h, w, w1);
  }

  /** Steps that leave the breaker alone and judge nothing. */
  lemma PlainKeeps(lim: O.Limits, t: string, h: seq<bool>, w: World, s: Step)
    requires Inv(t, h, w) && Next(lim, t, w, s).Some? && (s.Outbox? || s.Begin? || s.Elsewhere? || s.Crash?)
    ensures Inv(t, h, Next(lim, t, w, s).value)
  {
    hide O.Apply, C.Tracks, C.Next, C.AfterRecord, Inv;
    var w1 := Next(lim, t, w, s).value;
    Order.SubsetSize(ToFail(w1), ToFail(w));
    CountsDecide(t, h, w, w1);
  }

  lemma StepKeeps(lim: O.Limits, t: string, h: seq<bool>, w: World, s: Step)
    requires Inv(t, h, w) && Next(lim, t, w, s).Some?
    ensures Inv(t, h, Next(lim, t, w, s).value)
    ensures Next(lim, t, w, s).value.b.threshold == w.b.threshold
    ensures C.IsDown(w.b, t) ==> C.IsDown(Next(lim, t, w, s).value.b, t)
  {
    hide O.Apply, C.Next, C.AfterRecord, C.IsDown, Inv;
    match s
    case Ask(c) => AskKeeps(t, h, w, c);
    case Fold(k, now) =>
      FoldKeeps(t, h, w, k, now);
      FoldStaysDown(t, h, w, now);
    case Classify(k) => ClassifyKeeps(t, h, w, k);
    case Abort(k, others) => AbortKeeps(t, h, w, k, others || !C.IsDown(w.b, t));
    case Settle(k, jitter, now) => SettleKeeps(lim, t, h, w, k, jitter, now);
    case _ => PlainKeeps(lim, t, h, w, s);
  }

  // ---- every run ---------------------------------------------------------------------

  ghost predicate Run(lim: O.Limits, t: string, trace: seq<World>, steps: seq<Step>) {
    && |trace| == |steps| + 1 && Begins(trace[0])
    && forall i :: 0 <= i < |steps| ==> Next(lim, t, trace[i], steps[i]) == Some(trace[i + 1])
  }

  lemma {:induction false} RunKeeps(lim: O.Limits, t: string, h: seq<bool>, trace: seq<World>, steps: seq<Step>, i: nat)
    requires Run(lim, t, trace, steps) && i < |trace|
    requires trace[0].b.threshold > 0 && C.Tracks(trace[0].b, t, h)
    ensures Inv(t, h, trace[i]) && trace[i].b.threshold == trace[0].b.threshold
  {
    hide Next, Inv, C.Tracks;
    if i == 0 {
      BeginInv(t, h, trace[0]);
    } else {
      RunKeeps(lim, t, h, trace, steps, i - 1);
      assert Next(lim, t, trace[i - 1], steps[i - 1]) == Some(trace[i - 1 + 1]);
      StepKeeps(lim, t, h, trace[i - 1], steps[i - 1]);
    }
  }

  /** What every reachable breaker tracks. */
  lemma ReachableTracks(t: string, threshold: int, cooldown: int, calls: seq<C.Call>) returns (h: seq<bool>)
    ensures var b := C.Run(C.New(threshold, cooldown), calls); b.threshold > 0 && C.Tracks(b, t, h)
  {
    hide C.Run;
    C.WindowAndOpenEntry(threshold, cooldown, calls, t);
    C.SettingsFixed(C.New(threshold, cooldown), calls);
    h := C.SinceClose(C.Run(C.New(threshold, cooldown), calls).threshold, calls, t);
  }

  /** The whole outage charges at most threshold - 1 attempts besides those that were cut off
  before their outcome could reach the breaker, from any breaker state that any call sequence
  can reach and under any interleaving of any number of workers. */
  lemma OutageChargesFewer(lim: O.Limits, t: string, threshold: int, cooldown: int, calls: seq<C.Call>,
                           trace: seq<World>, steps: seq<Step>, i: nat)
    requires Run(lim, t, trace, steps) && i < |trace|
    requires trace[0].b == C.Run(C.New(threshold, cooldown), calls)
    ensures trace[i].charged <= trace[0].b.threshold - 1 + trace[i].aborts
    ensures trace[i].folds >= trace[0].b.threshold ==> C.IsDown(trace[i].b, t)
  {
    hide Run, Next, C.Run;
    var h := ReachableTracks(t, threshold, cooldown, calls);
    RunKeeps(lim, t, h, trace, steps, i);
    if trace[i].folds >= trace[0].b.threshold {
      FailuresTrip(trace[0].b.threshold, h, trace[i].folds);
    }
  }

  /** Once the circuit is open it stays open for the whole outage, and no attempt whose outcome
  reached the breaker is charged any more; what is still charged are cut-off attempts. */
  lemma {:induction false} LaterOnesDefer(lim: O.Limits, t: string, threshold: int, cooldown: int, calls: seq<C.Call>,
                                          trace: seq<World>, steps: seq<Step>, i: nat, j: nat)
    requires Run(lim, t, trace, steps) && i <= j < |trace|
    requires trace[0].b == C.Run(C.New(threshold, cooldown), calls)
    requires C.IsDown(trace[i].b, t)
    ensures C.IsDown(trace[j].b, t) && trace[j].charged - trace[j].aborts == trace[i].charged - trace[i].aborts
    decreases j
  {
    hide C.Tracks, C.Next, O.Apply, C.AfterRecord, C.IsDown, C.Run, Inv;
    if i < j {
      LaterOnesDefer(lim, t, threshold, cooldown, calls, trace, steps, i, j - 1);
      var h := ReachableTracks(t, threshold, cooldown, calls);
      RunKeeps(lim, t, h, trace, steps, j - 1);
      assert Next(lim, t, trace[j - 1], steps[j - 1]) == Some(trace[j - 1 + 1]);
      StepKeeps(lim, t, h, trace[j - 1], steps[j - 1]);
    }
  }

  // ---- dead letters ----------------------------------------------------------------------

  /** A row outside `tried` has absorbed the folded charges at most, and its own aborted ones. */
  predicate AttemptsWithin(w: World, tried: set<O.RowId>) {
    forall r :: r in w.rows && r !in tried ==> O.Coalesce(w.rows[r].attempts) <= w.applied + w.aborted[r]
  }

  lemma EventAttempts(lim: O.Limits, rows: O.Rows, e: O.Event, r: O.RowId)
    requires r in O.Apply(lim, rows, e)
    ensures var n := O.Coalesce(O.Apply(lim, rows, e)[r].attempts);
            && (n > 0 ==> r in rows)
            && (r in rows ==> n <= O.Coalesce(rows[r].attempts) + Bit(e.Settle? && e.how.Fail? && e.id == r))
  {
    hide O.Pow2, O.Backoff;
  }

  lemma StepAttempts(lim: O.Limits, t: string, w: World, s: Step, tried: set<O.RowId>)
    requires AttemptsWithin(w, tried) && Next(lim, t, w, s).Some?
    ensures AttemptsWithin(Next(lim, t, w, s).value, tried)
  {
    hide O.Apply, O.Coalesce, C.Next, C.AfterRecord;
    var w1 := Next(lim, t, w, s).value;
    forall r | r in w1.rows && r !in tried ensures O.Coalesce(w1.rows[r].attempts) <= w1.applied + w1.aborted[r] {
      match s
      case Outbox(e) =>
        EventAttempts(lim, w.rows, e, r);
      case Settle(k, jitter, now) =>
        EventAttempts(lim, w.rows, O.Settle(w.attempts[k].row, if w.attempts[k].at.fail then O.Fail else O.Defer(jitter), now), r);
      case Elsewhere(row, how, now) =>
        EventAttempts(lim, w.rows, O.Settle(row, how, now), r);
      case _ =>
    }
  }

  lemma {:induction false} RunAttempts(lim: O.Limits, t: string, trace: seq<World>, steps: seq<Step>, i: nat, tried: set<O.RowId>)
    requires Run(lim, t, trace, steps) && i < |trace| && AttemptsWithin(trace[0], tried)
    ensures AttemptsWithin(trace[i], tried)
  {
    hide Next, AttemptsWithin;
    if i > 0 {
      RunAttempts(lim, t, trace, steps, i - 1, tried);
      assert Next(lim, t, trace[i - 1], steps[i - 1]) == Some(trace[i - 1 + 1]);
      StepAttempts(lim, t, trace[i - 1], steps[i - 1], tried);
    }
  }

  lemma AppliedFewer(lim: O.Limits, t: string, threshold: int, cooldown: int, calls: seq<C.Call>,
                     trace: seq<World>, steps: seq<Step>, i: nat)
    requires Run(lim, t, trace, steps) && i < |trace|
    requires trace[0].b == C.Run(C.New(threshold, cooldown), calls)
    ensures trace[i].applied <= trace[0].b.threshold - 1
  {
    hide Run, Next, C.Run;
    var h := ReachableTracks(t, threshold, cooldown, calls);
    RunKeeps(lim, t, h, trace, steps, i);
  }

  /** The outage takes a row that began it at attempts 0 (or was enqueued since) to dead_letter
  only by cutting off that very row at least maxAttempts - threshold + 1 times. So with a
  threshold of at most maxAttempts (the configuration check demands strictly less), and no
  such cut-offs of it, the row is safe. `tried` are the rows that had attempts already. */
  lemma OutageDeadLettersNothing(lim: O.Limits, t: string, threshold: int, cooldown: int, calls: seq<C.Call>,
                                 trace: seq<World>, steps: seq<Step>, i: nat, tried: set<O.RowId>, r: O.RowId)
    requires Run(lim, t, trace, steps) && i < |steps| && steps[i].Settle?
    requires trace[0].b == C.Run(C.New(threshold, cooldown), calls)
    requires forall x :: x in trace[0].rows && x !in tried ==> O.Coalesce(trace[0].rows[x].attempts) == 0
    requires r in trace[i].rows && r !in tried && !trace[i].rows[r].status.DeadLetter?
    ensures r in trace[i + 1].rows
    ensures trace[i + 1].rows[r].status.DeadLetter? ==> trace[0].b.threshold - 1 + trace[i + 1].aborted[r] >= lim.maxAttempts
  {
    hide C.Run, C.Tracks, O.Pow2, O.Backoff;
    AppliedFewer(lim, t, threshold, cooldown, calls, trace, steps, i + 1);
    assert AttemptsWithin(trace[0], tried);
    RunAttempts(lim, t, trace, steps, i + 1, tried);
    assert Next(lim, t, trace[i], steps[i]) == Some(trace[i + 1]);
    FailedAtLimit(lim, trace[i], steps[i], r);
  }

  /** The validated configuration makes that so: whatever the outage, a row that began it at
  attempts 0 and was never cut off itself is not dead-lettered. */
  lemma ValidatedOutageIsSafe(c: Leases.Config, t: string, calls: seq<C.Call>, trace: seq<World>, steps: seq<Step>, i: nat,
                              tried: set<O.RowId>, r: O.RowId)
    requires Leases.ValidLimits(c) && c.maxAttempts >= 1
    requires Run(Leases.Lim(c), t, trace, steps) && i < |steps| && steps[i].Settle?
    requires trace[0].b == C.Run(C.New(c.circuitThreshold, c.circuitCooldown), calls)
    requires forall x :: x in trace[0].rows && x !in tried ==> O.Coalesce(trace[0].rows[x].attempts) == 0
    requires r in trace[i].rows && r !in tried && !trace[i].rows[r].status.DeadLetter? && trace[i + 1].aborted[r] == 0
    ensures r in trace[i + 1].rows && !trace[i + 1].rows[r].status.DeadLetter?
  {
    hide C.Run, Run;
    C.SettingsFixed(C.New(c.circuitThreshold, c.circuitCooldown), calls);
    OutageDeadLettersNothing(Leases.Lim(c), t, c.circuitThreshold, c.circuitCooldown, calls, trace, steps, i, tried, r);
  }

  lemma FailedAtLimit(lim: O.Limits, w: World, s: Step, r: O.RowId)
    requires s.Settle? && s.k in w.attempts && w.attempts[s.k].at.Judged?
    requires r in w.rows && !w.rows[r].status.DeadLetter?
    ensures var rows1 := Settled(lim, w, s.k, s.jitter, s.now).rows;
            r in rows1 && (rows1[r].status.DeadLetter? ==> O.Coalesce(rows1[r].attempts) >= lim.maxAttempts)
  {
    hide O.Pow2, O.Backoff;
  }

  // ---- the bounds are reached --------------------------------------------------------------

  /** An outage that begins with a new breaker, nothing in flight, and these rows. */
  function Calm(threshold: int, cooldown: int, rows: O.Rows): World {
    World(C.New(threshold, cooldown), rows, map[], 0, 0, 0, 0, multiset{})
  }

  lemma Extend(lim: O.Limits, t: string, trace: seq<World>, steps: seq<Step>, s: Step) returns (trace1: seq<World>, steps1: seq<Step>)
    requires Run(lim, t, trace, steps) && Next(lim, t, trace[|steps|], s).Some?
    ensures Run(lim, t, trace1, steps1) && |trace1| == |steps1| + 1 && trace1[0] == trace[0] && trace1[|steps1|] == Next(lim, t, trace[|steps|], s).value
  {
    hide Next, Begins;
    trace1, steps1 := trace + [Next(lim, t, trace[|steps|], s).value], steps + [s];
    forall i | 0 <= i < |steps1| ensures Next(lim, t, trace1[i], steps1[i]) == Some(trace1[i + 1]) {
      if i < |steps| {
        assert trace1[i] == trace[i] && trace1[i + 1] == trace[i + 1] && steps1[i] == steps[i];
      }
    }
  }

  /** When a pending row can be claimed again. */
  function DueAt(r: O.Row): int {
    if r.visibleAt.Some? then r.visibleAt.value else 0
  }

  /** A row charged once more. */
  predicate Charged(lim: O.Limits, r: O.Row, s: O.Row) {
    && s.attempts == Some(O.Coalesce(r.attempts) + 1)
    && s.status == if O.Coalesce(r.attempts) + 1 >= lim.maxAttempts then O.DeadLetter else O.Pending
  }

  lemma ClaimAndFail(lim: O.Limits, rows: O.Rows, r: O.RowId)
    requires r in rows && rows[r].status.Pending?
    ensures var now := DueAt(rows[r]);
            var claimed := O.Apply(lim, rows, O.Claim({r}, now));
            var failed := O.Apply(lim, claimed, O.Settle(r, O.Fail, now));
            && failed.Keys == rows.Keys && Charged(lim, rows[r], failed[r])
  {
    hide O.Pow2, O.Backoff;
  }

  /** One attempt of a pending row: claimed, fanned out, judged and charged. `folds` says whether
  its outcome reaches the breaker first. */
  lemma OneAttempt(lim: O.Limits, t: string, trace: seq<World>, steps: seq<Step>, r: O.RowId, folds: bool)
    returns (trace1: seq<World>, steps1: seq<Step>)
    requires Run(lim, t, trace, steps) && |trace| == |steps| + 1
    requires var w := trace[|steps|];
             && w.attempts == map[] && r in w.rows && w.rows[r].status.Pending?
             && !C.IsDown(if folds then C.AfterRecord(w.b, t, false, 0) else w.b, t)
    ensures Run(lim, t, trace1, steps1) && |trace1| == |steps1| + 1 && trace1[0] == trace[0]
    ensures var w, w1 := trace[|steps|], trace1[|steps1|];
            && w1.attempts == map[] && w1.rows.Keys == w.rows.Keys && Charged(lim, w.rows[r], w1.rows[r])
            && w1.b == (if folds then C.AfterRecord(w.b, t, false, 0) else w.b)
            && w1.folds == w.folds + Bit(folds) && w1.charged == w.charged + 1 && w1.aborts == w.aborts + Bit(!folds)
            && w1.aborted == if folds then w.aborted else w.aborted + multiset{r}
  {
    hide O.Apply, C.AfterRecord, C.IsDown, Run;
    var now := DueAt(trace[|steps|].rows[r]);
    ClaimAndFail(lim, trace[|steps|].rows, r);
    trace1, steps1 := Extend(lim, t, trace, steps, Outbox(O.Claim({r}, now)));
    trace1, steps1 := Extend(lim, t, trace1, steps1, Begin(0, r));
    if folds {
      trace1, steps1 := Extend(lim, t, trace1, steps1, Fold(0, 0));
      trace1, steps1 := Extend(lim, t, trace1, steps1, Classify(0));
    } else {
      trace1, steps1 := Extend(lim, t, trace1, steps1, Abort(0, false));
    }
    trace1, steps1 := Extend(lim, t, trace1, steps1, Settle(0, 0, now));
  }

  /** The breaker after `n` folded failures from new. */
  predicate FreshFolds(threshold: int, cooldown: int, t: string, b: C.Breaker, n: nat) {
    b.threshold == C.New(threshold, cooldown).threshold && C.Tracks(b, t, Failures(n))
  }

  lemma NoFolds(threshold: int, cooldown: int, t: string)
    ensures FreshFolds(threshold, cooldown, t, C.New(threshold, cooldown), 0)
  {
    C.EmptyNotTripped(C.New(threshold, cooldown).threshold);
    assert Failures(0) == [];
  }

  /** Below the threshold the circuit is still closed, and one more fold is tracked. */
  lemma StillClosed(threshold: int, cooldown: int, t: string, b: C.Breaker, n: nat)
    requires FreshFolds(threshold, cooldown, t, b, n)
    ensures n < b.threshold ==> !C.IsDown(b, t)
    ensures FreshFolds(threshold, cooldown, t, C.AfterRecord(b, t, false, 0), n + 1)
  {
    hide C.AfterRecord, C.Tripped, C.Last;
    FreshTripsExactly(b.threshold, n);
    C.RecordTracks(b, t, false, 0, Failures(n));
    P.RecordSettings(b, t, false, 0);
    assert Failures(n) + [false] == Failures(n + 1);
  }

  /** A run in which `j` attempts are folded and `n` are cut off, each on a row of its own. */
  lemma {:induction false} ManyRows(lim: O.Limits, t: string, threshold: int, cooldown: int, key: Id, n: nat, j: nat)
    returns (trace: seq<World>, steps: seq<Step>)
    requires j < C.New(threshold, cooldown).threshold
    ensures Run(lim, t, trace, steps) && |trace| == |steps| + 1 && trace[0] == Calm(threshold, cooldown, map[])
    ensures var w := trace[|steps|];
            && w.attempts == map[] && (forall r :: r in w.rows ==> r < n + j) && FreshFolds(threshold, cooldown, t, w.b, j)
            && w.folds == j && w.charged == n + j && w.aborts == n
    decreases n + j
  {
    hide C.AfterRecord, C.IsDown, FreshFolds, Next, Run, O.Apply, Charged;
    if n + j == 0 {
      trace, steps := [Calm(threshold, cooldown, map[])], [];
      NoFolds(threshold, cooldown, t);
      StartRun(lim, t, trace);
    } else {
      var folds := j > 0;
      trace, steps := ManyRows(lim, t, threshold, cooldown, key, if folds then n else n - 1, if folds then j - 1 else j);
      var w := trace[|steps|];
      var r := n + j - 1;
      Enqueued(lim, w.rows, r, key);
      trace, steps := ExtendOutbox(lim, t, trace, steps, O.Enqueue(r, O.NewRow(key)));
      KeepsClosed(threshold, cooldown, t, w.b, w.folds, folds);
      trace, steps := OneAttempt(lim, t, trace, steps, r, folds);
    }
  }

  lemma StartRun(lim: O.Limits, t: string, trace: seq<World>)
    requires |trace| == 1 && Begins(trace[0])
    ensures Run(lim, t, trace, [])
  {
  }

  lemma Enqueued(lim: O.Limits, rows: O.Rows, r: O.RowId, key: Id)
    requires r !in rows
    ensures O.Apply(lim, rows, O.Enqueue(r, O.NewRow(key))) == rows[r := O.NewRow(key)]
  {
  }

  lemma ExtendOutbox(lim: O.Limits, t: string, trace: seq<World>, steps: seq<Step>, e: O.Event) returns (trace1: seq<World>, steps1: seq<Step>)
    requires Run(lim, t, trace, steps) && |trace| == |steps| + 1 && !e.Settle?
    ensures Run(lim, t, trace1, steps1) && |trace1| == |steps1| + 1 && trace1[0] == trace[0]
    ensures trace1[|steps1|] == trace[|steps|].(rows := O.Apply(lim, trace[|steps|].rows, e))
  {
    hide O.Apply, Run;
    trace1, steps1 := Extend(lim, t, trace, steps, Outbox(e));
  }

  lemma KeepsClosed(threshold: int, cooldown: int, t: string, b: C.Breaker, n: nat, folds: bool)
    requires FreshFolds(threshold, cooldown, t, b, n) && n + Bit(folds) < C.New(threshold, cooldown).threshold
    ensures var b1 := if folds then C.AfterRecord(b, t, false, 0) else b;
            !C.IsDown(b1, t) && FreshFolds(threshold, cooldown, t, b1, n + Bit(folds))
  {
    hide C.AfterRecord, C.Tracks, C.IsDown;
    StillClosed(threshold, cooldown, t, b, n);
    if folds {
      StillClosed(threshold, cooldown, t, C.AfterRecord(b, t, false, 0), n + 1);
    }
  }

  /** The bound on charges is exact: for every number of cut-offs some outage reaches it. So
  attempts whose outcome never reaches the breaker are charged without limit. */
  lemma ChargesReachTheBound(lim: O.Limits, t: string, threshold: int, cooldown: int, key: Id, n: nat)
    returns (trace: seq<World>, steps: seq<Step>)
    ensures Run(lim, t, trace, steps) && |trace| == |steps| + 1 && trace[0].b == C.Run(C.New(threshold, cooldown), [])
    ensures trace[|steps|].aborts == n && trace[|steps|].charged == trace[0].b.threshold - 1 + n
  {
    hide Run, Next;
    trace, steps := ManyRows(lim, t, threshold, cooldown, key, n, C.New(threshold, cooldown).threshold - 1);
  }

  /** A run in which one row is folded `j` times and cut off `n` times, still short of the limit
  until the last of them. */
  lemma {:induction false} OneRow(lim: O.Limits, t: string, threshold: int, cooldown: int, key: Id, n: nat, j: nat)
    returns (trace: seq<World>, steps: seq<Step>)
    requires j < C.New(threshold, cooldown).threshold && n + j <= lim.maxAttempts && lim.maxAttempts > 0
    ensures Run(lim, t, trace, steps) && |trace| == |steps| + 1 && trace[0] == Calm(threshold, cooldown, map[0 := O.NewRow(key)])
    ensures var w := trace[|steps|];
            && w.attempts == map[] && 0 in w.rows && w.rows[0].attempts == Some(n + j)
            && w.rows[0].status == (if n + j >= lim.maxAttempts then O.DeadLetter else O.Pending)
            && FreshFolds(threshold, cooldown, t, w.b, j) && w.folds == j && w.aborted[0] == n
    decreases n + j
  {
    hide C.AfterRecord, C.IsDown, FreshFolds, Next, Run, O.Apply;
    if n + j == 0 {
      trace, steps := [Calm(threshold, cooldown, map[0 := O.NewRow(key)])], [];
      NoFolds(threshold, cooldown, t);
      StartRun(lim, t, trace);
    } else {
      var folds := j > 0;
      trace, steps := OneRow(lim, t, threshold, cooldown, key, if folds then n else n - 1, if folds then j - 1 else j);
      KeepsClosed(threshold, cooldown, t, trace[|steps|].b, trace[|steps|].folds, folds);
      trace, steps := OneAttempt(lim, t, trace, steps, 0, folds);
    }
  }

  /** The bound on dead letters is exact too: whenever threshold - 1 and the cut-offs of a row
  add up to maxAttempts, some outage takes that row from attempts 0 to dead_letter. */
  lemma DeadLetterReached(lim: O.Limits, t: string, threshold: int, cooldown: int, key: Id, n: nat)
    returns (trace: seq<World>, steps: seq<Step>)
    requires C.New(threshold, cooldown).threshold - 1 + n == lim.maxAttempts > 0
    ensures Run(lim, t, trace, steps) && |trace| == |steps| + 1 && trace[0].b == C.Run(C.New(threshold, cooldown), [])
    ensures trace[0].rows == map[0 := O.NewRow(key)]
    ensures var w := trace[|steps|]; 0 in w.rows && w.rows[0].status.DeadLetter? && w.aborted[0] == n
  {
    hide Run, Next;
    trace, steps := OneRow(lim, t, threshold, cooldown, key, n, C.New(threshold, cooldown).threshold - 1);
  }

  /** An open circuit does not end the charges: any run can go on with an attempt that is cut
  off while another of its targets has a closed circuit, and that attempt is charged. */
  lemma OpenCircuitStillCharges(lim: O.Limits, t: string, trace: seq<World>, steps: seq<Step>, k: nat, row: O.RowId)
    returns (trace1: seq<World>, steps1: seq<Step>)
    requires Run(lim, t, trace, steps) && |trace| == |steps| + 1 && k !in trace[|steps|].attempts
    ensures Run(lim, t, trace1, steps1) && |trace1| == |steps1| + 1 && trace1[0] == trace[0]
    ensures var w, w1 := trace[|steps|], trace1[|steps1|];
            w1.b == w.b && w1.charged == w.charged + 1 && w1.aborts == w.aborts + 1
  {
    hide Run, O.Apply, C.IsDown;
    trace1, steps1 := Extend(lim, t, trace, steps, Begin(k, row));
    trace1, steps1 := Extend(lim, t, trace1, steps1, Abort(k, true));
  }
}
