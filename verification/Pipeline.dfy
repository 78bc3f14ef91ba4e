/** Backing up one object: which targets still need it, what their outcomes mean for the
breaker and the ledger, and whether the object is done, deferred or failed. */
module Pipeline {
  import opened Content
  import opened Circuit
  import opened LedgerStore

  datatype Target = Target(name: string, codec: Codec)

  predicate DistinctNames(targets: seq<Target>) {
    forall i, j :: 0 <= i < j < |targets| ==> targets[i].name != targets[j].name
  }

  predicate StoredEverywhere(l: Ledger, id: Id, targets: seq<Target>) {
    forall i :: 0 <= i < |targets| ==> IsStored(l, id, targets[i].name)
  }

  datatype Item = Item(externalID: Id, size: int)

  /** A target's outcome as the fan-out reports it. */
  datatype Result = Result(ok: bool, stored: int)

  datatype Context = Live | DeadlineExceeded | Cancelled

  /** What the fan-out returns: no results when the fetch failed, else one per target, the
  verified size (None for -1) and whether it returned an error. */
  datatype Fan = FetchFailed(gone: bool) | Fanned(results: seq<Result>, verified: Option<nat>, ferr: bool)

  datatype BackupErr = Rejected | LedgerRead | SourceGone | SourceFault | Aborted | LedgerWrite

  datatype Verdict = Verdict(done: bool, deferred: bool, err: Option<BackupErr>)

  // ---- planning ----------------------------------------------------------------------

  datatype Plan = Plan(circuit: Option<Breaker>, pending: seq<Target>, skipped: bool)

  predicate CircuitRefuses(b: Option<Breaker>, name: string, now: Time) {
    b.Some? && Refused(b.value, name, now)
  }

  /** The planning loop over the first `k` targets; target `i` reads the clock at 2i and 2i+1. */
  function PlanTo(targets: seq<Target>, stored: set<string>, b: Option<Breaker>, clock: nat -> Time, k: nat): Plan
    requires k <= |targets|
  {
    if k == 0 then Plan(b, [], false) else
    var before := PlanTo(targets, stored, b, clock, k - 1);
    var t := targets[k - 1];
    if t.name in stored then before
    else
      var c := before.circuit;
      var asked := if c.Some? then Some(AfterOpen(c.value, t.name, clock(2 * k - 2), clock(2 * k - 1))) else None;
      if CircuitRefuses(c, t.name, clock(2 * k - 2)) then Plan(asked, before.pending, true)
      else Plan(asked, before.pending + [t], before.skipped)
  }

  /** Whether target `i` is fanned to, judged by the breaker as it was before planning. */
  predicate Wanted(targets: seq<Target>, stored: set<string>, b: Option<Breaker>, clock: nat -> Time, i: nat)
    requires i < |targets|
  {
    targets[i].name !in stored && !CircuitRefuses(b, targets[i].name, clock(2 * i))
  }

  predicate SkippedAt(targets: seq<Target>, stored: set<string>, b: Option<Breaker>, clock: nat -> Time, i: nat)
    requires i < |targets|
  {
    targets[i].name !in stored && CircuitRefuses(b, targets[i].name, clock(2 * i))
  }

  /** Asking about one target leaves every other target's circuit alone, and no circuit is
  opened or closed by asking. */
  ghost predicate AskedOnly(b: Option<Breaker>, c: Option<Breaker>, targets: seq<Target>, k: nat)
    requires k <= |targets|
  {
    && (b.None? <==> c.None?)
    && (b.Some? ==>
      && c.value.recent == b.value.recent && c.value.threshold == b.value.threshold && c.value.cooldown == b.value.cooldown
      && c.value.openUntil.Keys == b.value.openUntil.Keys
      && forall n :: n in b.value.openUntil && (forall i :: 0 <= i < k ==> targets[i].name != n) ==>
            c.value.openUntil[n] == b.value.openUntil[n])
  }

  lemma {:induction false} PlanAsksOnly(targets: seq<Target>, stored: set<string>, b: Option<Breaker>, clock: nat -> Time, k: nat)
    requires k <= |targets|
    ensures AskedOnly(b, PlanTo(targets, stored, b, clock, k).circuit, targets, k)
  {
    if k > 0 {
      PlanAsksOnly(targets, stored, b, clock, k - 1);
    }
  }

  /** What the loop's own updates of the breaker leave unchanged: its next decision. */
  lemma NextDecision(targets: seq<Target>, stored: set<string>, b: Option<Breaker>, clock: nat -> Time, k: nat)
    requires 0 < k <= |targets| && DistinctNames(targets)
    ensures var c := PlanTo(targets, stored, b, clock, k - 1).circuit;
            CircuitRefuses(c, targets[k - 1].name, clock(2 * k - 2)) <==> CircuitRefuses(b, targets[k - 1].name, clock(2 * (k - 1)))
  {
    hide PlanTo;
    PlanAsksOnly(targets, stored, b, clock, k - 1);
  }

  /** One turn of the loop, judged by the breaker as it was before planning. */
  lemma PlanTurn(targets: seq<Target>, stored: set<string>, b: Option<Breaker>, clock: nat -> Time, k: nat)
    requires 0 < k <= |targets| && DistinctNames(targets)
    ensures var before, plan := PlanTo(targets, stored, b, clock, k - 1), PlanTo(targets, stored, b, clock, k);
            && plan.pending == before.pending + (if Wanted(targets, stored, b, clock, k - 1) then [targets[k - 1]] else [])
            && plan.skipped == (before.skipped || SkippedAt(targets, stored, b, clock, k - 1))
  {
    hide AfterOpen, CircuitRefuses, DistinctNames;
    NextDecision(targets, stored, b, clock, k);
  }

  lemma {:induction false} PlanPending(targets: seq<Target>, stored: set<string>, b: Option<Breaker>, clock: nat -> Time, k: nat)
    requires k <= |targets| && DistinctNames(targets)
    ensures var plan := PlanTo(targets, stored, b, clock, k);
            && (forall j :: 0 <= j < |plan.pending| ==> exists i :: 0 <= i < k && targets[i] == plan.pending[j])
            && DistinctNames(plan.pending)
  {
    if k > 0 {
      hide PlanTo, Wanted, SkippedAt;
      PlanPending(targets, stored, b, clock, k - 1);
      PlanTurn(targets, stored, b, clock, k);
    } else {
      assert PlanTo(targets, stored, b, clock, k).pending == [];
    }
  }

  lemma {:induction false} PlanWanted(targets: seq<Target>, stored: set<string>, b: Option<Breaker>, clock: nat -> Time, k: nat, i: nat)
    requires i < k <= |targets| && DistinctNames(targets)
    ensures targets[i] in PlanTo(targets, stored, b, clock, k).pending <==> Wanted(targets, stored, b, clock, i)
    decreases k
  {
    hide PlanTo, Wanted;
    PlanTurn(targets, stored, b, clock, k);
    if i < k - 1 {
      PlanWanted(targets, stored, b, clock, k - 1, i);
    } else {
      PlanPending(targets, stored, b, clock, k - 1);
    }
  }

  lemma {:induction false} PlanSkipped(targets: seq<Target>, stored: set<string>, b: Option<Breaker>, clock: nat -> Time, k: nat)
    requires k <= |targets| && DistinctNames(targets)
    ensures PlanTo(targets, stored, b, clock, k).skipped <==> exists i :: 0 <= i < k && SkippedAt(targets, stored, b, clock, i)
  {
    if k > 0 {
      hide PlanTo, SkippedAt, DistinctNames;
      PlanTurn(targets, stored, b, clock, k);
      PlanSkipped(targets, stored, b, clock, k - 1);
    } else {
      assert !PlanTo(targets, stored, b, clock, k).skipped;
    }
  }

  /** The plan, target by target: the loop's own updates of the breaker never change its
  later decisions. */
  lemma PlanDecides(targets: seq<Target>, stored: set<string>, b: Option<Breaker>, clock: nat -> Time, k: nat)
    requires k <= |targets| && DistinctNames(targets)
    ensures var plan := PlanTo(targets, stored, b, clock, k);
            && (forall i :: 0 <= i < k ==> (targets[i] in plan.pending <==> Wanted(targets, stored, b, clock, i)))
            && (forall t :: t in plan.pending ==> exists i :: 0 <= i < k && targets[i] == t)
            && (plan.skipped <==> exists i :: 0 <= i < k && SkippedAt(targets, stored, b, clock, i))
            && DistinctNames(plan.pending)
  {
    hide PlanTo, Wanted, SkippedAt, DistinctNames;
    PlanPending(targets, stored, b, clock, k);
    PlanSkipped(targets, stored, b, clock, k);
    forall i | 0 <= i < k ensures targets[i] in PlanTo(targets, stored, b, clock, k).pending <==> Wanted(targets, stored, b, clock, i) {
      PlanWanted(targets, stored, b, clock, k, i);
    }
  }

  // ---- concluding --------------------------------------------------------------------

  /** Folding the first `k` outcomes into the breaker. */
  function RecordAll(b: Option<Breaker>, pending: seq<Target>, results: seq<Result>, clock: nat -> Time, k: nat): Option<Breaker>
    requires k <= |pending| == |results|
  {
    if b.None? || k == 0 then b
    else
      var before := RecordAll(b, pending, results, clock, k - 1);
      Some(AfterRecord(before.value, pending[k - 1].name, results[k - 1].ok, clock(k - 1)))
  }

  /** Two breakers say the same of one target: its window and its open entry. */
  predicate SameOn(b: Breaker, c: Breaker, name: string) {
    && (name in b.recent <==> name in c.recent) && Outcomes(b, name) == Outcomes(c, name)
    && (IsDown(b, name) <==> IsDown(c, name)) && (IsDown(b, name) ==> b.openUntil[name] == c.openUntil[name])
  }

  lemma SameTwice(b: Breaker, c: Breaker, d: Breaker, name: string)
    ensures SameOn(b, b, name)
    ensures SameOn(b, c, name) && SameOn(c, d, name) ==> SameOn(b, d, name)
  {
  }

  lemma RecordOther(b: Breaker, name: string, ok: bool, now: Time, other: string)
    requires other != name
    ensures SameOn(AfterRecord(b, name, ok, now), b, other)
  {
    hide Fails, Last;
  }

  lemma RecordSame(b: Breaker, c: Breaker, name: string, ok: bool, now: Time)
    requires SameOn(b, c, name) && b.threshold == c.threshold && b.cooldown == c.cooldown
    ensures SameOn(AfterRecord(b, name, ok, now), AfterRecord(c, name, ok, now), name)
  {
    hide Fails, Last;
  }

  lemma RecordSettings(b: Breaker, name: string, ok: bool, now: Time)
    ensures var c := AfterRecord(b, name, ok, now); c.threshold == b.threshold && c.cooldown == b.cooldown
  {
    hide Fails, Last;
  }

  lemma {:induction false} RecordAllSettings(b: Breaker, pending: seq<Target>, results: seq<Result>, clock: nat -> Time, k: nat)
    requires k <= |pending| == |results|
    ensures var c := RecordAll(Some(b), pending, results, clock, k);
            c.Some? && c.value.threshold == b.threshold && c.value.cooldown == b.cooldown
  {
    hide AfterRecord;
    if k > 0 {
      RecordAllSettings(b, pending, results, clock, k - 1);
      RecordSettings(RecordAll(Some(b), pending, results, clock, k - 1).value, pending[k - 1].name, results[k - 1].ok, clock(k - 1));
    }
  }

  /** Folding leaves each target that is not among the first `k` as it was. */
  lemma {:induction false} RecordAllOthers(b: Breaker, pending: seq<Target>, results: seq<Result>, clock: nat -> Time, k: nat, other: string)
    requires k <= |pending| == |results| && forall i :: 0 <= i < k ==> pending[i].name != other
    ensures var c := RecordAll(Some(b), pending, results, clock, k);
            c.Some? && SameOn(c.value, b, other)
  {
    hide AfterRecord, SameOn;
    SameTwice(b, b, b, other);
    if k > 0 {
      RecordAllOthers(b, pending, results, clock, k - 1, other);
      var before := RecordAll(Some(b), pending, results, clock, k - 1).value;
      var name, ok, now := pending[k - 1].name, results[k - 1].ok, clock(k - 1);
      RecordOther(before, name, ok, now, other);
      SameTwice(AfterRecord(before, name, ok, now), before, b, other);
    }
  }

  /** With distinct names each pending target moves by its own outcome alone, exactly as one
  recording of that outcome would move it. */
  lemma {:induction false} RecordAllEach(b: Breaker, pending: seq<Target>, results: seq<Result>, clock: nat -> Time, k: nat, i: nat)
    requires i < k <= |pending| == |results| && DistinctNames(pending)
    ensures var c := RecordAll(Some(b), pending, results, clock, k);
            c.Some? && SameOn(c.value, AfterRecord(b, pending[i].name, results[i].ok, clock(i)), pending[i].name)
    decreases k
  {
    hide AfterRecord, SameOn;
    var name := pending[i].name;
    if i == k - 1 {
      RecordAllOthers(b, pending, results, clock, k - 1, name);
      RecordAllSettings(b, pending, results, clock, k - 1);
      RecordSame(RecordAll(Some(b), pending, results, clock, k - 1).value, b, name, results[i].ok, clock(i));
    } else {
      RecordAllEach(b, pending, results, clock, k - 1, i);
      var before := RecordAll(Some(b), pending, results, clock, k - 1).value;
      var last, ok, now := pending[k - 1].name, results[k - 1].ok, clock(k - 1);
      RecordOther(before, last, ok, now, name);
      SameTwice(AfterRecord(before, last, ok, now), before, AfterRecord(b, name, results[i].ok, clock(i)), name);
    }
  }

  predicate ShouldRecord(ctx: Context, aborted: bool, streamVerified: bool) {
    !aborted || (ctx.DeadlineExceeded? && streamVerified)
  }

  predicate CircuitDown(b: Option<Breaker>, name: string) {
    b.Some? && IsDown(b.value, name)
  }

  /** The status rows of the first `k` outcomes. */
  function Rows(b: Option<Breaker>, pending: seq<Target>, results: seq<Result>, aborted: bool, k: nat): seq<TargetStatus>
    requires k <= |pending| == |results|
  {
    if k == 0 then []
    else
      var before := Rows(b, pending, results, aborted, k - 1);
      var name := pending[k - 1].name;
      if results[k - 1].ok then before + [TargetStatus(name, StateStored, results[k - 1].stored)]
      else if CircuitDown(b, name) || aborted then before
      else before + [TargetStatus(name, StateFailed, 0)]
  }

  /** Some reachable target failed among the first `k`. */
  predicate HealthyFailed(b: Option<Breaker>, pending: seq<Target>, results: seq<Result>, k: nat)
    requires k <= |pending| == |results|
  {
    exists i :: 0 <= i < k && !results[i].ok && !CircuitDown(b, pending[i].name)
  }

  predicate AllStored(results: seq<Result>, k: nat)
    requires k <= |results|
  {
    forall i :: 0 <= i < k ==> results[i].ok
  }

  predicate OkFor(pending: seq<Target>, results: seq<Result>, k: nat, name: string)
    requires k <= |pending| == |results|
  {
    exists i :: 0 <= i < k && pending[i].name == name && results[i].ok
  }

  predicate SomeTarget(pending: seq<Target>, k: nat, name: string)
    requires k <= |pending|
  {
    exists i :: 0 <= i < k && pending[i].name == name
  }

  /** The rows: one at most per target, and a stored one exactly for each stored outcome. */
  lemma {:induction false} RowsSay(b: Option<Breaker>, pending: seq<Target>, results: seq<Result>, aborted: bool, k: nat)
    requires k <= |pending| == |results| && DistinctNames(pending)
    ensures var rows := Rows(b, pending, results, aborted, k);
            && DistinctTargets(rows)
            && (forall j :: 0 <= j < |rows| ==> SomeTarget(pending, k, rows[j].target))
            && (forall name :: TargetStored(rows, name) <==> OkFor(pending, results, k, name))
  {
    if k > 0 {
      hide CircuitDown;
      RowsSay(b, pending, results, aborted, k - 1);
      var before := Rows(b, pending, results, aborted, k - 1);
      var rows := Rows(b, pending, results, aborted, k);
      var name := pending[k - 1].name;
      assert !SomeTarget(pending, k - 1, name);
      forall j | 0 <= j < |rows| ensures SomeTarget(pending, k, rows[j].target) {
        assert j < |before| ==> rows[j] == before[j] && SomeTarget(pending, k - 1, before[j].target);
      }
      forall n ensures TargetStored(rows, n) <==> OkFor(pending, results, k, n) {
        RowsSayOne(b, pending, results, aborted, k, n);
      }
    }
  }

  /** A row says that a target failed. */
  predicate TargetFailed(rows: seq<TargetStatus>, t: string) {
    exists k :: 0 <= k < |rows| && rows[k].target == t && rows[k].state.StateFailed?
  }

  /** A reachable target's failure, among the first `k`. */
  predicate FailedFor(b: Option<Breaker>, pending: seq<Target>, results: seq<Result>, k: nat, name: string)
    requires k <= |pending| == |results|
  {
    exists i :: 0 <= i < k && pending[i].name == name && !results[i].ok && !CircuitDown(b, name)
  }

  /** The failed rows: exactly the reachable targets that failed, and none after an abort, when
  what became of them is unknown. Stored rows carry what their target stored, others nothing. */
  lemma {:induction false} FailedRowsSay(b: Option<Breaker>, pending: seq<Target>, results: seq<Result>, aborted: bool, k: nat, name: string)
    requires k <= |pending| == |results|
    ensures var rows := Rows(b, pending, results, aborted, k);
            && (TargetFailed(rows, name) <==> !aborted && FailedFor(b, pending, results, k, name))
            && (forall j :: 0 <= j < |rows| ==> RowFrom(pending, results, k, rows[j]))
  {
    if k > 0 {
      hide CircuitDown;
      FailedRowsSay(b, pending, results, aborted, k - 1, name);
      var before, rows := Rows(b, pending, results, aborted, k - 1), Rows(b, pending, results, aborted, k);
      forall j | 0 <= j < |rows| ensures RowFrom(pending, results, k, rows[j]) {
        assert j < |before| ==> rows[j] == before[j] && RowFrom(pending, results, k - 1, before[j]);
      }
      if j :| 0 <= j < |before| && before[j].target == name && before[j].state.StateFailed? {
        assert rows[j] == before[j];
      }
      if |rows| > |before| && pending[k - 1].name == name && !results[k - 1].ok {
        assert rows[|before|].target == name && rows[|before|].state.StateFailed?;
      }
    }
  }

  /** A row is the record of one outcome. */
  predicate RowFrom(pending: seq<Target>, results: seq<Result>, k: nat, row: TargetStatus)
    requires k <= |pending| == |results|
  {
    exists i :: 0 <= i < k && row.target == pending[i].name && (row.state.StateStored? <==> results[i].ok)
             && row.storedBytes == if results[i].ok then results[i].stored else 0
  }

  lemma RowsSayOne(b: Option<Breaker>, pending: seq<Target>, results: seq<Result>, aborted: bool, k: nat, n: string)
    requires 0 < k <= |pending| == |results|
    requires TargetStored(Rows(b, pending, results, aborted, k - 1), n) <==> OkFor(pending, results, k - 1, n)
    ensures TargetStored(Rows(b, pending, results, aborted, k), n) <==> OkFor(pending, results, k, n)
  {
    var before := Rows(b, pending, results, aborted, k - 1);
    var rows := Rows(b, pending, results, aborted, k);
    if j :| 0 <= j < |before| && before[j].target == n && before[j].state.StateStored? {
      assert rows[j] == before[j];
    }
    if results[k - 1].ok && pending[k - 1].name == n {
      assert rows[|before|].target == n && rows[|before|].state.StateStored?;
    }
  }

  datatype Attempt = Attempt(write: Option<(ObjectMeta, seq<TargetStatus>)>, circuit: Option<Breaker>, verdict: Verdict)

  function Meta(item: Item, verified: Option<nat>): ObjectMeta {
    ObjectMeta(item.externalID, if verified.Some? then verified.value else item.size, verified.Some?)
  }

  /** The classification and what follows it. `b` is the breaker as it is read here, after
  the folding (if any) and whatever other workers have done to it since. */
  function Judge(item: Item, b: Option<Breaker>, pending: seq<Target>, skipped: bool, fan: Fan): Attempt
    requires fan.Fanned? && |fan.results| == |pending|
  {
    var n := |pending|;
    var rows := Rows(b, pending, fan.results, fan.ferr, n);
    var write := if rows != [] then Some((Meta(item, fan.verified), rows)) else None;
    if HealthyFailed(b, pending, fan.results, n) then
      Attempt(write, b, Verdict(false, false, if fan.ferr then Some(Aborted) else None))
    else
      var done := AllStored(fan.results, n) && !skipped && !fan.ferr;
      Attempt(write, b, Verdict(done, !done, None))
  }

  lemma JudgeErrors(item: Item, b: Option<Breaker>, pending: seq<Target>, skipped: bool, fan: Fan)
    requires fan.Fanned? && |fan.results| == |pending|
    ensures var a := Judge(item, b, pending, skipped, fan); a.circuit == b && (a.verdict.err == None || a.verdict.err == Some(Aborted))
  {
    hide Rows;
  }

  /** Everything after the plan. `b` is the breaker when the outcomes arrive. */
  function Conclude(item: Item, b: Option<Breaker>, pending: seq<Target>, skipped: bool, fan: Fan, ctx: Context,
                    clock: nat -> Time): Attempt
    requires fan.Fanned? ==> |fan.results| == |pending|
  {
    if pending == [] then Attempt(None, b, Verdict(!skipped, skipped, None))
    else if fan.FetchFailed? then Attempt(None, b, Verdict(false, false, Some(if fan.gone then SourceGone else SourceFault)))
    else if fan.ferr && ctx.Live? then Attempt(None, b, Verdict(false, false, Some(SourceFault)))
    else
      var folds := ShouldRecord(ctx, fan.ferr, fan.verified.Some?);
      Judge(item, if folds then RecordAll(b, pending, fan.results, clock, |pending|) else b, pending, skipped, fan)
  }

  /** Whether an attempt feeds the breaker: when it ran to its end, or was cut off by its own
  deadline after the whole stream had been delivered and verified. */
  lemma {:induction false} ConcludeFolds(item: Item, b: Breaker, pending: seq<Target>, skipped: bool, fan: Fan, ctx: Context,
                                         clock: nat -> Time, i: nat, h: seq<bool>)
    requires fan.Fanned? && i < |pending| == |fan.results| && DistinctNames(pending)
    requires b.threshold > 0 && Tracks(b, pending[i].name, h)
    ensures var c := Conclude(item, Some(b), pending, skipped, fan, ctx, clock).circuit;
            var ok := fan.results[i].ok;
            if !fan.ferr || (ctx.DeadlineExceeded? && fan.verified.Some?) then
              && c.Some? && c.value.threshold == b.threshold && c.value.cooldown == b.cooldown
              && Tracks(c.value, pending[i].name, if ok && Tripped(b.threshold, h) then [] else h + [ok])
            else c == Some(b)
  {
    hide RecordAll, AfterRecord, Tripped, Last, Rows, HealthyFailed, AllStored;
    var name, ok := pending[i].name, fan.results[i].ok;
    RecordAllEach(b, pending, fan.results, clock, |pending|, i);
    RecordAllSettings(b, pending, fan.results, clock, |pending|);
    RecordSettings(b, name, ok, clock(i));
    RecordTracks(b, name, ok, clock(i), h);
  }

  /** A target that was not pending keeps its circuit, and so do all without a finished fan-out. */
  lemma {:induction false} ConcludeLeavesOthers(item: Item, b: Option<Breaker>, pending: seq<Target>, skipped: bool, fan: Fan, ctx: Context,
                                                clock: nat -> Time, other: string)
    requires fan.Fanned? ==> |fan.results| == |pending|
    requires forall i :: 0 <= i < |pending| ==> pending[i].name != other
    ensures var c := Conclude(item, b, pending, skipped, fan, ctx, clock).circuit;
            && (b.None? || fan.FetchFailed? || pending == [] ==> c == b)
            && (b.Some? ==> c.Some? && SameOn(c.value, b.value, other))
  {
    hide RecordAll, AfterRecord, SameOn, Rows, HealthyFailed, AllStored;
    if b.Some? {
      SameTwice(b.value, b.value, b.value, other);
      if fan.Fanned? {
        RecordAllOthers(b.value, pending, fan.results, clock, |pending|, other);
      }
    } else if fan.Fanned? {
      NoBreaker(pending, fan.results, clock);
    }
  }

  lemma NoBreaker(pending: seq<Target>, results: seq<Result>, clock: nat -> Time)
    requires |pending| == |results|
    ensures RecordAll(None, pending, results, clock, |pending|) == None
  {
  }

  predicate SomeReachableFailed(b: Option<Breaker>, pending: seq<Target>, results: seq<Result>)
    requires |pending| == |results|
  {
    exists i :: 0 <= i < |pending| && !results[i].ok && !CircuitDown(b, pending[i].name)
  }

  /** Which error an attempt answers and what size it records, each exactly when: a source that is gone, a source that
  failed otherwise, or a reachable target that failed as the context ended. */
  lemma ErrorExactly(item: Item, b: Option<Breaker>, pending: seq<Target>, skipped: bool, fan: Fan, ctx: Context, clock: nat -> Time)
    requires fan.Fanned? ==> |fan.results| == |pending|
    ensures var a := Conclude(item, b, pending, skipped, fan, ctx, clock);
            && (a.verdict.err == Some(SourceGone) <==> pending != [] && fan == FetchFailed(true))
            && (a.verdict.err == Some(SourceFault) <==> pending != [] && (fan == FetchFailed(false) || (fan.Fanned? && fan.ferr && ctx.Live?)))
            && (a.verdict.err == Some(Aborted) <==>
                  pending != [] && fan.Fanned? && fan.ferr && !ctx.Live? && SomeReachableFailed(a.circuit, pending, fan.results))
            && a.verdict.err != Some(Rejected) && a.verdict.err != Some(LedgerRead) && a.verdict.err != Some(LedgerWrite)
            && (a.write.Some? ==>
              && fan.Fanned? && a.write.value.0.externalID == item.externalID && a.write.value.0.sizeVerified == fan.verified.Some?
              && a.write.value.0.size == if fan.verified.Some? then fan.verified.value else item.size)
  {
    hide RecordAll, Rows;
  }

  /** The three verdicts exclude each other, and done means that every pending target
  stored, none was skipped and nothing aborted. */
  lemma DoneExactly(item: Item, b: Option<Breaker>, pending: seq<Target>, skipped: bool, fan: Fan, ctx: Context, clock: nat -> Time)
    requires fan.Fanned? ==> |fan.results| == |pending|
    ensures var v := Conclude(item, b, pending, skipped, fan, ctx, clock).verdict;
            && (v.done <==> !skipped && (pending == [] || (fan.Fanned? && !fan.ferr && AllStored(fan.results, |pending|))))
            && !(v.done && v.deferred) && (v.err.Some? ==> !v.done && !v.deferred)
  {
  }

  /** Deferred, which costs the object no attempt, exactly when the object is not done, there
  was no source failure, and each target that failed is one whose circuit is open. */
  lemma DeferredExactly(item: Item, b: Option<Breaker>, pending: seq<Target>, skipped: bool, fan: Fan, ctx: Context, clock: nat -> Time)
    requires fan.Fanned? ==> |fan.results| == |pending|
    ensures var a := Conclude(item, b, pending, skipped, fan, ctx, clock);
            a.verdict.deferred <==>
              && !a.verdict.done
              && (pending != [] ==>
                && fan.Fanned? && (fan.ferr ==> !ctx.Live?)
                && forall i :: 0 <= i < |pending| && !fan.results[i].ok ==> CircuitDown(a.circuit, pending[i].name))
  {
  }

  /** A source failure, or a fetch that never delivered, records nothing anywhere. */
  lemma SourceFailureRecordsNothing(item: Item, b: Option<Breaker>, pending: seq<Target>, skipped: bool, fan: Fan, ctx: Context, clock: nat -> Time)
    requires fan.Fanned? ==> |fan.results| == |pending|
    requires fan.FetchFailed? || (fan.ferr && ctx.Live?)
    ensures var a := Conclude(item, b, pending, skipped, fan, ctx, clock);
            a.write == None && a.circuit == b && (pending != [] ==> !a.verdict.done && !a.verdict.deferred && a.verdict.err.Some?)
  {
  }

  /** What the fan-out guarantees of its results (see FanoutSafety.StoredMeansCommitted): a
  stored target means that the whole plaintext was read and hashed to the key. */
  ghost predicate FanTrue(hash: Hash, item: Item, fan: Fan) {
    fan.Fanned? ==>
      && ((exists i :: 0 <= i < |fan.results| && fan.results[i].ok) ==> fan.verified.Some?)
      && (fan.verified.Some? ==> exists p :: hash(p) == item.externalID && fan.verified.value == |p|)
  }

  /** The write names each target once, its stored rows are exactly the targets that stored,
  and an object is never done without it. */
  lemma ConcludeWrites(item: Item, b: Option<Breaker>, pending: seq<Target>, skipped: bool, fan: Fan, ctx: Context, clock: nat -> Time)
    requires fan.Fanned? ==> |fan.results| == |pending|
    requires DistinctNames(pending)
    ensures var a := Conclude(item, b, pending, skipped, fan, ctx, clock);
            && (a.write.Some? ==>
              && fan.Fanned? && a.write.value.0 == Meta(item, fan.verified) && DistinctTargets(a.write.value.1)
              && forall name :: TargetStored(a.write.value.1, name) <==> OkFor(pending, fan.results, |pending|, name))
            && (a.verdict.done && pending != [] ==> a.write.Some?)
  {
    hide AfterRecord, DistinctNames, DistinctTargets;
    var a := Conclude(item, b, pending, skipped, fan, ctx, clock);
    if pending != [] && fan.Fanned? && !(fan.ferr && ctx.Live?) {
      var n := |pending|;
      var b1 := if ShouldRecord(ctx, fan.ferr, fan.verified.Some?) then RecordAll(b, pending, fan.results, clock, n) else b;
      RowsSay(b1, pending, fan.results, fan.ferr, n);
      if a.verdict.done {
        assert OkFor(pending, fan.results, n, pending[0].name);
        assert TargetStored(Rows(b1, pending, fan.results, fan.ferr, n), pending[0].name);
      }
    }
  }

  /** Every write of the pipeline is one that the ledger's size invariant allows. */
  lemma WritesAreTrue(hash: Hash, item: Item, b: Option<Breaker>, pending: seq<Target>, skipped: bool, fan: Fan, ctx: Context,
                      clock: nat -> Time)
    requires fan.Fanned? ==> |fan.results| == |pending|
    requires DistinctNames(pending) && FanTrue(hash, item, fan)
    ensures var a := Conclude(item, b, pending, skipped, fan, ctx, clock);
            a.write.Some? ==> PipelineWrite(hash, a.write.value.0, a.write.value.1)
  {
    hide Conclude;
    ConcludeWrites(item, b, pending, skipped, fan, ctx, clock);
  }

  /** The done-gate: when the stored set the plan used was true and the write (if any) landed,
  done leaves every configured target stored in the ledger. The breaker may have changed
  in any way since the plan. */
  lemma DoneMeansStored(targets: seq<Target>, stored: set<string>, b: Option<Breaker>, planClock: nat -> Time,
                        item: Item, later: Option<Breaker>, fan: Fan, ctx: Context, clock: nat -> Time,
                        l: Ledger, now: Time, l1: Ledger)
    requires DistinctNames(targets)
    requires var plan := PlanTo(targets, stored, b, planClock, |targets|);
             && (fan.Fanned? ==> |fan.results| == |plan.pending|)
             && var a := Conclude(item, later, plan.pending, plan.skipped, fan, ctx, clock);
                && a.verdict.done
                && (a.write.None? ==> l1 == l)
                && (a.write.Some? ==> Recorded(l, a.write.value.0, a.write.value.1, now, l1))
    requires TrueHolders(l, item.externalID, stored)
    ensures StoredEverywhere(l1, item.externalID, targets)
  {
    hide PlanTo, Recorded, DistinctNames, DistinctTargets, IsStored;
    var plan := PlanTo(targets, stored, b, planClock, |targets|);
    PlanDecides(targets, stored, b, planClock, |targets|);
    ConcludeWrites(item, later, plan.pending, plan.skipped, fan, ctx, clock);
    DoneExactly(item, later, plan.pending, plan.skipped, fan, ctx, clock);
    forall i | 0 <= i < |targets| ensures IsStored(l1, item.externalID, targets[i].name) {
      DoneTarget(targets, stored, b, planClock, item, plan, later, fan, ctx, clock, l, now, l1, i);
    }
  }

  lemma DoneTarget(targets: seq<Target>, stored: set<string>, b: Option<Breaker>, planClock: nat -> Time, item: Item, plan: Plan,
                   later: Option<Breaker>, fan: Fan, ctx: Context, clock: nat -> Time, l: Ledger, now: Time, l1: Ledger, i: nat)
    requires i < |targets| && (fan.Fanned? ==> |fan.results| == |plan.pending|)
    requires targets[i] in plan.pending <==> Wanted(targets, stored, b, planClock, i)
    requires plan.skipped <==> exists j :: 0 <= j < |targets| && SkippedAt(targets, stored, b, planClock, j)
    requires DistinctNames(plan.pending)
    requires var a := Conclude(item, later, plan.pending, plan.skipped, fan, ctx, clock);
             && a.verdict.done
             && (a.write.None? ==> l1 == l)
             && (a.write.Some? ==> Recorded(l, a.write.value.0, a.write.value.1, now, l1))
    requires TrueHolders(l, item.externalID, stored)
    ensures IsStored(l1, item.externalID, targets[i].name)
  {
    hide Recorded, DistinctNames, DistinctTargets, IsStored, CircuitRefuses, Conclude;
    var a := Conclude(item, later, plan.pending, plan.skipped, fan, ctx, clock);
    var name := targets[i].name;
    ConcludeWrites(item, later, plan.pending, plan.skipped, fan, ctx, clock);
    DoneExactly(item, later, plan.pending, plan.skipped, fan, ctx, clock);
    if a.write.Some? {
      RecordKeepsStored(l, a.write.value.0, a.write.value.1, now, l1, item.externalID, name);
    }
    if name !in stored {
      assert !SkippedAt(targets, stored, b, planClock, i);
      var j :| 0 <= j < |plan.pending| && plan.pending[j] == targets[i];
      assert OkFor(plan.pending, fan.results, |plan.pending|, name);
    }
  }

  // ---- the code ----------------------------------------------------------------------

  class BackupPipeline {
    const targets: seq<Target>
    const ledger: LedgerRepo
    const breaker: CircuitBreaker?

    ghost predicate Valid()
      reads breaker
    {
      DistinctNames(targets) && (breaker != null ==> breaker.Valid())
    }

    ghost function Circuit(): Option<Breaker>
      reads breaker
    {
      if breaker == null then None else Some(breaker.View())
    }

    constructor (targets: seq<Target>, ledger: LedgerRepo, breaker: CircuitBreaker?)
      requires DistinctNames(targets) && (breaker != null ==> breaker.Valid())
      ensures Valid() && this.targets == targets && this.ledger == ledger && this.breaker == breaker
    {
      this.targets, this.ledger, this.breaker := targets, ledger, breaker;
    }

    method PendingTargets(stored: set<string>, clock: nat -> Time) returns (pending: seq<Target>, skippedOpen: bool)
      requires Valid()
      modifies breaker
      ensures Valid()
      ensures Plan(Circuit(), pending, skippedOpen) == PlanTo(targets, stored, old(Circuit()), clock, |targets|)
    {
      hide AfterOpen, Refused;
      pending, skippedOpen := [], false;
      for k := 0 to |targets|
        invariant Valid()
        invariant Plan(Circuit(), pending, skippedOpen) == PlanTo(targets, stored, old(Circuit()), clock, k)
      {
        var t := targets[k];
        if t.name in stored {
          continue;
        }
        if breaker != null {
          var open := breaker.Open(t.name, clock(2 * k), clock(2 * k + 1));
          if open {
            skippedOpen := true;
            continue;
          }
        }
        pending := pending + [t];
      }
    }

    method RecordCircuit(pending: seq<Target>, results: seq<Result>, clock: nat -> Time)
      requires Valid() && |pending| == |results|
      modifies breaker
      ensures Valid() && Circuit() == RecordAll(old(Circuit()), pending, results, clock, |pending|)
    {
      hide AfterRecord;
      if breaker == null {
        return;
      }
      for k := 0 to |pending|
        invariant Valid()
        invariant Circuit() == RecordAll(old(Circuit()), pending, results, clock, k)
      {
        breaker.Record(pending[k].name, results[k].ok, clock(k));
      }
    }

    method ClassifyFanout(pending: seq<Target>, results: seq<Result>, aborted: bool)
      returns (statuses: seq<TargetStatus>, healthyFailed: bool, allStored: bool)
      requires Valid() && |pending| == |results|
      ensures statuses == Rows(Circuit(), pending, results, aborted, |pending|)
      ensures healthyFailed == HealthyFailed(Circuit(), pending, results, |pending|)
      ensures allStored == AllStored(results, |pending|)
    {
      statuses, healthyFailed, allStored := [], false, true;
      for k := 0 to |pending|
        invariant statuses == Rows(Circuit(), pending, results, aborted, k)
        invariant healthyFailed == HealthyFailed(Circuit(), pending, results, k)
        invariant allStored == AllStored(results, k)
      {
        var name := pending[k].name;
        if !results[k].ok {
          allStored := false;
          if breaker != null && breaker.Down(name) {
            continue;
          }
          healthyFailed := true;
          if !aborted {
            statuses := statuses + [TargetStatus(name, StateFailed, 0)];
          }
          continue;
        }
        statuses := statuses + [TargetStatus(name, StateStored, results[k].stored)];
      }
    }

    /** Classify, record and answer: the part after the breaker has been fed. */
    method JudgeFanout(item: Item, pending: seq<Target>, skippedOpen: bool, out: Fan, now: Time, writeFault: bool) returns (v: Verdict)
      requires Valid() && DistinctNames(pending)
      requires out.Fanned? && |out.results| == |pending|
      modifies ledger
      ensures var a := Judge(item, Circuit(), pending, skippedOpen, out);
              var wrote := a.write.Some? && !writeFault;
              && v == (if a.write.Some? && writeFault then Verdict(false, false, Some(LedgerWrite)) else a.verdict)
              && (!wrote ==> ledger.View() == old(ledger.View()))
              && (wrote ==> Recorded(old(ledger.View()), a.write.value.0, a.write.value.1, now, ledger.View()))
    {
      hide Recorded, DistinctTargets, DistinctNames, Rows, AllStored, HealthyFailed, TargetStored, OkFor;
      RowsSay(Circuit(), pending, out.results, out.ferr, |pending|);
      var objSize := item.size;
      if out.verified.Some? {
        objSize := out.verified.value;
      }
      var aborted := out.ferr;
      var statuses, healthyFailed, allStored := ClassifyFanout(pending, out.results, aborted);
      if |statuses| > 0 {
        var err := ledger.RecordBackup(ObjectMeta(item.externalID, objSize, out.verified.Some?), statuses, now, writeFault);
        if err {
          return Verdict(false, false, Some(LedgerWrite));
        }
      }
      if healthyFailed {
        return Verdict(false, false, if aborted then Some(Aborted) else None);
      }
      var done := allStored && !skippedOpen && !aborted;
      return Verdict(done, !done, None);
    }

    /** The second half of a backup: what the outcomes of the pending targets lead to. */
    method ConcludeFanout(item: Item, pending: seq<Target>, skippedOpen: bool, out: Fan, ctx: Context,
                          clock: nat -> Time, now: Time, writeFault: bool)
      returns (v: Verdict)
      requires Valid() && DistinctNames(pending)
      requires out.Fanned? ==> |out.results| == |pending|
      modifies ledger, breaker
      ensures Valid()
      ensures v.err != Some(Rejected) && v.err != Some(LedgerRead)
      ensures var a := Conclude(item, old(Circuit()), pending, skippedOpen, out, ctx, clock);
              var wrote := a.write.Some? && !writeFault;
              && Circuit() == a.circuit
              && v == (if a.write.Some? && writeFault then Verdict(false, false, Some(LedgerWrite)) else a.verdict)
              && (!wrote ==> ledger.View() == old(ledger.View()))
              && (wrote ==> Recorded(old(ledger.View()), a.write.value.0, a.write.value.1, now, ledger.View()))
    {
      hide AfterRecord, Recorded, DistinctNames, Judge, RecordAll;
      if |pending| == 0 {
        return Verdict(!skippedOpen, skippedOpen, None);
      }
      if out.FetchFailed? {
        return Verdict(false, false, Some(if out.gone then SourceGone else SourceFault));
      }
      if out.ferr && ctx.Live? {
        return Verdict(false, false, Some(SourceFault));
      }
      if ShouldRecord(ctx, out.ferr, out.verified.Some?) {
        RecordCircuit(pending, out.results, clock);
      }
      JudgeErrors(item, Circuit(), pending, skippedOpen, out);
      v := JudgeFanout(item, pending, skippedOpen, out, now, writeFault);
    }

    /** One object. `known` is the stored set a caller already holds; `fan` is what the
    fan-out does with the targets it is given. Done means stored on every target. */
    method BackupFrom(item: Item, known: Option<set<string>>, readFault: bool, planClock: nat -> Time,
                      fan: seq<Target> -> Fan, ctx: Context, recordClock: nat -> Time, now: Time, writeFault: bool)
      returns (v: Verdict)
      requires Valid()
      requires forall p :: fan(p).Fanned? ==> |fan(p).results| == |p|
      modifies ledger, breaker
      ensures Valid()
      ensures v.done && (known.Some? ==> TrueHolders(old(ledger.View()), item.externalID, known.value)) ==>
                StoredEverywhere(ledger.View(), item.externalID, targets)
      ensures v.err == Some(Rejected) <==> !IsContentHash(item.externalID) || targets == []
      ensures v.err == Some(LedgerRead) <==> v.err != Some(Rejected) && known.None? && readFault
      ensures v.err == Some(Rejected) || v.err == Some(LedgerRead) ==>
                !v.done && !v.deferred && ledger.View() == old(ledger.View()) && Circuit() == old(Circuit())
      ensures v.err != Some(Rejected) && v.err != Some(LedgerRead) ==>
                var stored := if known.Some? then known.value else old(ledger.StoredTargets(item.externalID));
                var plan := PlanTo(targets, stored, old(Circuit()), planClock, |targets|);
                var a := Conclude(item, plan.circuit, plan.pending, plan.skipped, fan(plan.pending), ctx, recordClock);
                var wrote := a.write.Some? && !writeFault;
                && Circuit() == a.circuit
                && v == (if a.write.Some? && writeFault then Verdict(false, false, Some(LedgerWrite)) else a.verdict)
                && (!wrote ==> ledger.View() == old(ledger.View()))
                && (wrote ==> Recorded(old(ledger.View()), a.write.value.0, a.write.value.1, now, ledger.View()))
    {
      hide AfterRecord, AfterOpen, Refused, Recorded, IsContentHash, DistinctTargets, DistinctNames, Conclude, PlanTo, IsStored;
      var valid := ValidateContentHash(item.externalID);
      if !valid || |targets| == 0 {
        return Verdict(false, false, Some(Rejected));
      }
      var stored;
      if known.Some? {
        stored := known.value;
      } else if readFault {
        return Verdict(false, false, Some(LedgerRead));
      } else {
        stored := ledger.StoredTargets(item.externalID);
      }
      var pending, skippedOpen := PendingTargets(stored, planClock);
      PlanDecides(targets, stored, old(Circuit()), planClock, |targets|);
      ghost var circuit := Circuit();
      v := ConcludeFanout(item, pending, skippedOpen, fan(pending), ctx, recordClock, now, writeFault);
      if v.done && TrueHolders(old(ledger.View()), item.externalID, stored) {
        DoneMeansStored(targets, stored, old(Circuit()), planClock, item, circuit, fan(pending), ctx, recordClock,
                        old(ledger.View()), now, ledger.View());
      }
    }
  }
}
