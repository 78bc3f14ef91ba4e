/** Repairing an under-replicated object from a target that holds it, rotating past holders
that are gone or corrupt. */
module Reconcile {
  import opened Content
  import opened Pipeline
  import C = Circuit
  import Coverage
  import L = LedgerStore
  import Order
  import R = Restore

  // ---- the order of sources --------------------------------------------------------------

  /** A sorted list without repeats is the set in order, whatever order it came in. */
  lemma SortIsSortSet(s: seq<string>, names: set<string>)
    requires Order.NoRepeats(s) && Order.Elements(s) == names
    ensures Order.Sort(s) == Order.SortSet(names)
  {
    hide Order.Less, Order.SortSet;
    var r := Order.Sort(s);
    forall x ensures x in Order.Elements(r) <==> x in names {
      assert multiset(r)[x] == multiset(s)[x];
      assert x in r <==> x in multiset(r);
      assert x in s <==> x in multiset(s);
    }
    assert Order.Elements(r) == names;
    Order.ElementsCount(s);
    Order.ElementsCount(r);
    forall i, j | 0 <= i < j < |r| ensures Order.Less(r[i], r[j]) {
      assert Order.LessEq(r[i], r[j]);
    }
    Order.AscendingUnique(r, Order.SortSet(names));
  }

  function DownOf(b: Option<C.Breaker>, stored: set<string>): set<string> {
    set n | n in stored && CircuitDown(b, n)
  }

  /** Healthy holders in name order, then the circuit-down ones. */
  function SourceOrder(b: Option<C.Breaker>, stored: set<string>): seq<string> {
    Order.SortSet(stored - DownOf(b, stored)) + Order.SortSet(DownOf(b, stored))
  }

  /** Every holder appears once, and no healthy one after a down one. */
  lemma SourceOrderFacts(b: Option<C.Breaker>, stored: set<string>)
    ensures var names := SourceOrder(b, stored);
            && Order.NoRepeats(names) && Order.Elements(names) == stored
            && (forall i, j :: 0 <= i < j < |names| && CircuitDown(b, names[i]) ==> CircuitDown(b, names[j]))
            && (forall i, j :: 0 <= i < j < |names| && CircuitDown(b, names[i]) == CircuitDown(b, names[j]) ==> Order.Less(names[i], names[j]))
  {
    hide Order.Less, Order.SortSet, Order.NoRepeats, DownOf, CircuitDown, Order.Ascending, Order.Elements;
    var downs := DownOf(b, stored);
    var up, down := Order.SortSet(stored - downs), Order.SortSet(downs);
    DownAreStored(b, stored);
    Order.AscendingNoRepeats(up);
    Order.AscendingNoRepeats(down);
    Order.Joined(up, down);
    var names := up + down;
    assert names == SourceOrder(b, stored);
    forall i | 0 <= i < |names| ensures CircuitDown(b, names[i]) <==> i >= |up| {
      InElements(names, i);
      InDownOf(b, stored, names[i]);
      if i < |up| {
        InElements(up, i);
      } else {
        InElements(down, i - |up|);
      }
    }
    forall i, j | 0 <= i < j < |names| && CircuitDown(b, names[i]) == CircuitDown(b, names[j]) ensures Order.Less(names[i], names[j]) {
      if i < |up| {
        AscendingAt(up, i, j);
      } else {
        AscendingAt(down, i - |up|, j - |up|);
      }
    }
  }

  lemma AscendingAt(s: seq<string>, i: nat, j: nat)
    requires Order.Ascending(s) && i < j < |s|
    ensures Order.Less(s[i], s[j])
  {
    hide Order.Less;
  }

  lemma InElements(s: seq<string>, i: nat)
    requires i < |s|
    ensures s[i] in Order.Elements(s)
  {
  }

  // ---- one holder as a source ---------------------------------------------------------------

  /** What decoding one holder's copy into the scratch file meets. */
  datatype Holder = Holder(first: R.Fetch, second: R.Fetch, acc: R.Accidents, scratch: bool)

  /** The plaintext a holder yields, if its copy decodes. */
  function Plaintext(env: R.Env, key: Id, h: Holder): (p: Option<Bytes>)
    ensures p.Some? ==> env.hash(p.value) == key && |p.value| <= env.cap
  {
    if h.scratch && R.DecodeOutcome(env, key, h.first, h.second, h.acc) == R.Ok
    then Some(R.Restored(env, key, h.first, h.second, h.acc)) else None
  }

  /** What the destinations do with a plaintext: one fan-out. */
  type Destinations = (Bytes, seq<Target>) -> Fan

  function FanFrom(env: R.Env, key: Id, h: Holder, dests: Destinations, pending: seq<Target>): Fan {
    match Plaintext(env, key, h)
    case None => FetchFailed(false)
    case Some(p) => dests(p, pending)
  }

  /** A holder whose copy is what a backup committed yields the backed-up plaintext. */
  lemma IntactHolder(env: R.Env, codec: Codec, p: Bytes, sawEnd: bool)
    requires R.CodecContract(env) && CollisionFree(env.hash) && |p| <= env.cap
    ensures var f := R.Fetched(Encode(env.compress, codec, p), false);
            Plaintext(env, env.hash(p), Holder(f, f, R.SMOOTH.(sawEnd := sawEnd), true)) == Some(p)
  {
    hide R.DecodeOutcome, R.Restored;
    R.RoundTrip(env, codec, p, sawEnd);
  }

  /** Corrupt: neither the stored bytes nor what they decompress to are the plaintext. */
  ghost predicate Corrupted(env: R.Env, key: Id, x: Bytes) {
    env.hash(x) != key && forall fault :: env.hash(R.Limited(env, x, fault).out) != key
  }

  /** A corrupt holder never reaches a destination, whatever else happens while reading it. */
  lemma CorruptHolderFansNothing(env: R.Env, key: Id, h: Holder, dests: Destinations, pending: seq<Target>)
    requires h.first.Fetched? ==> Corrupted(env, key, h.first.bytes)
    requires h.second.Fetched? ==> Corrupted(env, key, h.second.bytes)
    ensures FanFrom(env, key, h, dests, pending) == FetchFailed(false)
  {
    hide R.Limited;
    if h.first.Fetched? {
      assert env.hash(R.Limited(env, h.first.bytes, h.first.fault).out) != key;
    }
  }

  // ---- the repair loop -------------------------------------------------------------------------

  /** The environment of one try: its clocks and context, whether the ledger write fails,
  whether a parent cancellation or the object's own deadline is seen after it. */
  datatype Try = Try(planClock: nat -> C.Time, ctx: Context, recordClock: nat -> C.Time, now: C.Time, writeFault: bool,
                     cancelled: bool, expired: bool)

  datatype RepairOutcome = Repaired | StillFailed | CancelledInFlight | NoHolder

  predicate Configured(targets: seq<Target>, name: string) {
    exists i :: 0 <= i < |targets| && targets[i].name == name
  }

  predicate Closed(b: Option<C.Breaker>, targets: seq<Target>, stored: set<string>) {
    forall i :: 0 <= i < |targets| && targets[i].name !in stored ==> !CircuitDown(b, targets[i].name)
  }

  /** With closed circuits planning skips nothing and changes nothing. */
  lemma {:induction false} ClosedPlan(targets: seq<Target>, stored: set<string>, b: Option<C.Breaker>, clock: nat -> C.Time, k: nat)
    requires k <= |targets| && Closed(b, targets, stored)
    ensures var plan := PlanTo(targets, stored, b, clock, k); plan.circuit == b && !plan.skipped
  {
    if k > 0 {
      ClosedPlan(targets, stored, b, clock, k - 1);
    }
  }

  ghost predicate Accepting(env: R.Env, key: Id, dests: Destinations) {
    forall p, pending :: env.hash(p) == key && |p| <= env.cap ==>
      var f := dests(p, pending);
      f.Fanned? && |f.results| == |pending| && f.verified.Some? && !f.ferr && AllStored(f.results, |pending|)
  }

  ghost predicate Undisturbed(tries: nat -> Try) {
    forall i :: tries(i).ctx.Live? && !tries(i).writeFault && !tries(i).cancelled && !tries(i).expired
  }

  /** The parent context has ended by the time any try comes back. */
  ghost predicate ShuttingDown(tries: nat -> Try) {
    forall i :: tries(i).cancelled && !tries(i).writeFault
  }

  /** No configured holder among `stored` can supply the plaintext. */
  predicate Sourceless(env: R.Env, key: Id, targets: seq<Target>, stored: set<string>, holders: string -> Holder) {
    forall n :: n in stored && Configured(targets, n) ==> Plaintext(env, key, holders(n)).None?
  }

  predicate NoneConfigured(targets: seq<Target>, stored: set<string>) {
    forall n :: n in stored ==> !Configured(targets, n)
  }

  lemma NoSources(env: R.Env, key: Id, targets: seq<Target>, holders: string -> Holder, names: seq<string>)
    ensures NoneConfigured(targets, Order.Elements(names[..0]))
    ensures Sourceless(env, key, targets, Order.Elements(names[..0]), holders)
  {
  }

  lemma OneSource(env: R.Env, key: Id, targets: seq<Target>, stored: set<string>, holders: string -> Holder, names: seq<string>, i: nat)
    requires i < |names| && names[i] in stored
    ensures Sourceless(env, key, targets, stored, holders) && Configured(targets, names[i]) ==>
              Plaintext(env, key, holders(names[i])).None?
    ensures Sourceless(env, key, targets, Order.Elements(names[..i]), holders)
            && (Configured(targets, names[i]) ==> Plaintext(env, key, holders(names[i])).None?) ==>
              Sourceless(env, key, targets, Order.Elements(names[..i + 1]), holders)
    ensures NoneConfigured(targets, Order.Elements(names[..i + 1])) <==>
              NoneConfigured(targets, Order.Elements(names[..i])) && !Configured(targets, names[i])
    ensures Configured(targets, names[i]) ==> !NoneConfigured(targets, stored)
  {
    hide Plaintext, Configured;
    assert names[..i + 1] == names[..i] + [names[i]];
  }

  lemma AllSources(names: seq<string>, stored: set<string>)
    requires Order.Elements(names) == stored
    ensures Order.Elements(names[..|names|]) == stored
  {
    assert names[..|names|] == names;
  }

  lemma NamesStored(names: seq<string>, i: nat)
    requires i < |names|
    ensures names[i] in Order.Elements(names)
  {
  }

  lemma ShutDownAt(tries: nat -> Try, i: nat)
    requires ShuttingDown(tries)
    ensures tries(i).cancelled && !tries(i).writeFault
  {
  }

  /** The verdict of one try with every destination accepting: repaired when the holder is
  intact or nothing is pending, else a source failure that leaves everything as it was. */
  lemma OneTry(env: R.Env, key: Id, targets: seq<Target>, stored: set<string>, b: Option<C.Breaker>, h: Holder, dests: Destinations, t: Try)
    requires DistinctNames(targets) && Closed(b, targets, stored) && Accepting(env, key, dests)
    ensures var plan := PlanTo(targets, stored, b, t.planClock, |targets|);
            var fan := FanFrom(env, key, h, dests, plan.pending);
            && (fan.Fanned? ==> |fan.results| == |plan.pending|)
            && var a := Conclude(Item(key, 0), plan.circuit, plan.pending, plan.skipped, fan, t.ctx, t.recordClock);
               if plan.pending == [] || Plaintext(env, key, h).Some? then a.verdict == Verdict(true, false, None)
               else a == Attempt(None, b, Verdict(false, false, Some(SourceFault)))
  {
    hide PlanTo, Rows, RecordAll, Plaintext, DistinctNames;
    ClosedPlan(targets, stored, b, t.planClock, |targets|);
  }

  /** A closed circuit that no success can open. Every closed circuit of a reachable breaker
  is one, see `ClosedIsHealthy`. */
  predicate HealthyOn(b: C.Breaker, name: string) {
    !C.IsDown(b, name) && |C.Outcomes(b, name)| <= 2 * b.threshold && !C.Tripped(b.threshold, C.Outcomes(b, name))
  }

  predicate Healthy(b: Option<C.Breaker>, targets: seq<Target>) {
    b.Some? ==> b.value.threshold > 0 && forall i :: 0 <= i < |targets| ==> HealthyOn(b.value, targets[i].name)
  }

  lemma ClosedIsHealthy(threshold: int, cooldown: int, calls: seq<C.Call>, name: string)
    ensures var b := C.Run(C.New(threshold, cooldown), calls); !C.IsDown(b, name) ==> HealthyOn(b, name)
  {
    hide C.Run, C.SinceClose, C.Fails;
    C.WindowAndOpenEntry(threshold, cooldown, calls, name);
  }

  lemma SuccessKeepsHealthy(b: C.Breaker, name: string, now: C.Time)
    requires b.threshold > 0 && HealthyOn(b, name)
    ensures HealthyOn(C.AfterRecord(b, name, true, now), name)
  {
    hide C.Fails;
    C.TrippedAppend(b.threshold, C.Outcomes(b, name), true);
  }

  lemma SameIsHealthy(b: C.Breaker, c: C.Breaker, name: string)
    requires SameOn(b, c, name) && b.threshold == c.threshold && HealthyOn(c, name)
    ensures HealthyOn(b, name)
  {
    hide C.Fails, C.Last, C.Tripped;
  }

  /** Folding nothing but successes keeps every circuit closed. */
  lemma FoldKeepsHealthy(b: C.Breaker, targets: seq<Target>, pending: seq<Target>, results: seq<Result>, clock: nat -> C.Time)
    requires Healthy(Some(b), targets) && |pending| == |results| && DistinctNames(pending) && AllStored(results, |pending|)
    ensures Healthy(RecordAll(Some(b), pending, results, clock, |pending|), targets)
  {
    hide C.AfterRecord, HealthyOn, SameOn, RecordAll, DistinctNames;
    var n := |pending|;
    RecordAllSettings(b, pending, results, clock, n);
    var c := RecordAll(Some(b), pending, results, clock, n).value;
    forall i | 0 <= i < |targets| ensures HealthyOn(c, targets[i].name) {
      var name := targets[i].name;
      if j :| 0 <= j < n && pending[j].name == name {
        RecordAllEach(b, pending, results, clock, n, j);
        SuccessKeepsHealthy(b, name, clock(j));
        RecordSettings(b, name, true, clock(j));
        SameIsHealthy(c, C.AfterRecord(b, name, true, clock(j)), name);
      } else {
        RecordAllOthers(b, pending, results, clock, n, name);
        SameIsHealthy(c, b, name);
      }
    }
  }

  lemma HealthyIsClosed(b: Option<C.Breaker>, targets: seq<Target>, stored: set<string>)
    requires Healthy(b, targets)
    ensures Closed(b, targets, stored)
  {
    hide C.Tripped;
  }

  /** The breaker after one try with every destination accepting. */
  lemma TryKeepsHealthy(env: R.Env, key: Id, targets: seq<Target>, stored: set<string>, b: Option<C.Breaker>, h: Holder, dests: Destinations, t: Try)
    requires DistinctNames(targets) && Healthy(b, targets) && Accepting(env, key, dests)
    ensures var plan := PlanTo(targets, stored, b, t.planClock, |targets|);
            var fan := FanFrom(env, key, h, dests, plan.pending);
            && (fan.Fanned? ==> |fan.results| == |plan.pending|)
            && Healthy(Conclude(Item(key, 0), plan.circuit, plan.pending, plan.skipped, fan, t.ctx, t.recordClock).circuit, targets)
  {
    hide PlanTo, Rows, RecordAll, Plaintext, DistinctNames, Healthy, HealthyFailed;
    HealthyIsClosed(b, targets, stored);
    ClosedPlan(targets, stored, b, t.planClock, |targets|);
    PlanPending(targets, stored, b, t.planClock, |targets|);
    var plan := PlanTo(targets, stored, b, t.planClock, |targets|);
    var fan := FanFrom(env, key, h, dests, plan.pending);
    if b.Some? && fan.Fanned? {
      FoldKeepsHealthy(b.value, targets, plan.pending, fan.results, t.recordClock);
    } else if b.None? && fan.Fanned? {
      NoBreaker(plan.pending, fan.results, t.recordClock);
    }
  }

  // ---- what a repair may touch -------------------------------------------------------------

  /** Object `id` stands in both ledgers alike. */
  ghost predicate SameObject(l: L.Ledger, l1: L.Ledger, id: Id) {
    forall n :: L.IsStored(l, id, n) <==> L.IsStored(l1, id, n)
  }

  /** Only object `key` may have changed, and it lost nothing. */
  ghost predicate OnlyObject(l: L.Ledger, l1: L.Ledger, key: Id) {
    && (forall id :: id != key ==> SameObject(l, l1, id)) && (forall n :: L.IsStored(l, key, n) ==> L.IsStored(l1, key, n))
    && l.objects.Keys <= l1.objects.Keys <= l.objects.Keys + {key}
  }

  lemma WriteTouchesOne(l: L.Ledger, obj: L.ObjectMeta, rows: seq<L.TargetStatus>, now: C.Time, l1: L.Ledger)
    requires L.Recorded(l, obj, rows, now, l1)
    ensures OnlyObject(l, l1, obj.externalID)
  {
    hide L.IsStored;
    forall id, n ensures L.IsStored(l1, id, n) <==> L.IsStored(l, id, n) || (id == obj.externalID && L.TargetStored(rows, n)) {
      L.RecordKeepsStored(l, obj, rows, now, l1, id, n);
    }
  }

  lemma OnlyTwice(l: L.Ledger, l1: L.Ledger, l2: L.Ledger, key: Id)
    ensures OnlyObject(l, l, key)
    ensures OnlyObject(l, l1, key) && OnlyObject(l1, l2, key) ==> OnlyObject(l, l2, key)
  {
    hide L.IsStored;
    if OnlyObject(l, l1, key) && OnlyObject(l1, l2, key) {
      forall id | id != key ensures SameObject(l, l2, id) {
        assert SameObject(l, l1, id) && SameObject(l1, l2, id);
      }
    }
  }

  class Reconciler {
    const pipeline: BackupPipeline

    ghost predicate Valid()
      reads pipeline, pipeline.breaker
    {
      pipeline.Valid()
    }

    constructor (pipeline: BackupPipeline)
      requires pipeline.Valid()
      ensures Valid() && this.pipeline == pipeline
    {
      this.pipeline := pipeline;
    }

    method OrderSources(stored: set<string>) returns (names: seq<string>)
      requires Valid()
      ensures names == SourceOrder(pipeline.Circuit(), stored)
    {
      hide Order.Less, Order.SortSet, Order.Sort, Split;
      SplitStart(pipeline.Circuit());
      assert stored - stored == {};
      var healthy: seq<string>, down: seq<string> := [], [];
      var left := stored;
      while left != {}
        invariant left <= stored && Split(pipeline.Circuit(), stored - left, healthy, down)
        decreases left
      {
        var name :| name in left;
        SplitStep(pipeline.Circuit(), stored - left, healthy, down, name);
        assert stored - (left - {name}) == stored - left + {name};
        if pipeline.breaker != null && pipeline.breaker.Down(name) {
          down := down + [name];
        } else {
          healthy := healthy + [name];
        }
        left := left - {name};
      }
      assert stored - {} == stored;
      SplitEnd(pipeline.Circuit(), stored, healthy, down);
      return Order.Sort(healthy) + Order.Sort(down);
    }

    /** One try: the pipeline with one holder as its source. */
    method TryHolder(env: R.Env, key: Id, stored: set<string>, h: Holder, dests: Destinations, t: Try) returns (v: Verdict)
      requires Valid()
      requires forall p, pending :: dests(p, pending).Fanned? ==> |dests(p, pending).results| == |pending|
      requires L.TrueHolders(pipeline.ledger.View(), key, stored)
      modifies pipeline.ledger, pipeline.breaker
      ensures Valid() && L.TrueHolders(pipeline.ledger.View(), key, stored)
      ensures v.done ==> v.err.None? && StoredEverywhere(pipeline.ledger.View(), key, pipeline.targets)
      ensures OnlyObject(old(pipeline.ledger.View()), pipeline.ledger.View(), key)
      ensures Plaintext(env, key, h).None? || !IsContentHash(key) ==> pipeline.ledger.View() == old(pipeline.ledger.View())
      ensures Healthy(old(pipeline.Circuit()), pipeline.targets) && Accepting(env, key, dests) ==> Healthy(pipeline.Circuit(), pipeline.targets)
      ensures IsContentHash(key) && pipeline.targets != [] && !t.writeFault
              && Closed(old(pipeline.Circuit()), pipeline.targets, stored) && Accepting(env, key, dests) ==>
                v.done || (Plaintext(env, key, h).None? && v.err.Some? && pipeline.Circuit() == old(pipeline.Circuit()))
    {
      hide PlanTo, Conclude, Plaintext, L.Recorded, L.IsStored, DistinctNames, Closed, Accepting, CircuitDown, IsContentHash, Healthy, OnlyObject,
           L.TargetStored, OkFor, L.DistinctTargets;
      var item := Item(key, 0);
      ghost var plan := PlanTo(pipeline.targets, stored, pipeline.Circuit(), t.planClock, |pipeline.targets|);
      ghost var fan := FanFrom(env, key, h, dests, plan.pending);
      DoneExactly(item, plan.circuit, plan.pending, plan.skipped, fan, t.ctx, t.recordClock);
      if Closed(pipeline.Circuit(), pipeline.targets, stored) && Accepting(env, key, dests) {
        OneTry(env, key, pipeline.targets, stored, pipeline.Circuit(), h, dests, t);
      }
      if Healthy(pipeline.Circuit(), pipeline.targets) && Accepting(env, key, dests) {
        TryKeepsHealthy(env, key, pipeline.targets, stored, pipeline.Circuit(), h, dests, t);
      }
      NothingFetched(item, plan.circuit, plan.pending, plan.skipped, t.ctx, t.recordClock);
      ghost var before := pipeline.ledger.View();
      OnlyTwice(before, before, before, key);
      v := pipeline.BackupFrom(item, Some(stored), false, t.planClock, pending => FanFrom(env, key, h, dests, pending),
                               t.ctx, t.recordClock, t.now, t.writeFault);
      ghost var a := Conclude(item, plan.circuit, plan.pending, plan.skipped, fan, t.ctx, t.recordClock);
      if pipeline.ledger.View() != before {
        PlanPending(pipeline.targets, stored, old(pipeline.Circuit()), t.planClock, |pipeline.targets|);
        ConcludeWrites(item, plan.circuit, plan.pending, plan.skipped, fan, t.ctx, t.recordClock);
        StillTrue(before, a.write.value.0, a.write.value.1, t.now, pipeline.ledger.View(), key, stored);
        WriteTouchesOne(before, a.write.value.0, a.write.value.1, t.now, pipeline.ledger.View());
      }
    }

    /** One gap object. `stored` is what the gap sweep found stored. */
    method Repair(env: R.Env, key: Id, stored: set<string>, holders: string -> Holder, dests: Destinations, tries: nat -> Try)
      returns (r: RepairOutcome)
      requires Valid()
      requires forall p, pending :: dests(p, pending).Fanned? ==> |dests(p, pending).results| == |pending|
      requires L.TrueHolders(pipeline.ledger.View(), key, stored)
      modifies pipeline.ledger, pipeline.breaker
      ensures Valid()
      ensures r == Repaired ==> StoredEverywhere(pipeline.ledger.View(), key, pipeline.targets)
      ensures r == CancelledInFlight ==> exists i: nat :: tries(i).cancelled
      ensures IsContentHash(key) && Closed(old(pipeline.Circuit()), pipeline.targets, stored) && Accepting(env, key, dests)
              && ShuttingDown(tries) && r != NoHolder
              && Sourceless(env, key, pipeline.targets, stored, holders) ==>
                r == CancelledInFlight || r == Repaired
      ensures r == NoHolder <==> NoneConfigured(pipeline.targets, stored)
      ensures OnlyObject(old(pipeline.ledger.View()), pipeline.ledger.View(), key)
      ensures !IsContentHash(key) ==> pipeline.ledger.View() == old(pipeline.ledger.View())
      ensures Sourceless(env, key, pipeline.targets, stored, holders) ==>
                pipeline.ledger.View() == old(pipeline.ledger.View())
      ensures Healthy(old(pipeline.Circuit()), pipeline.targets) && Accepting(env, key, dests) ==> Healthy(pipeline.Circuit(), pipeline.targets)
      ensures IsContentHash(key) && Closed(old(pipeline.Circuit()), pipeline.targets, stored)
              && Accepting(env, key, dests) && Undisturbed(tries)
              && !Sourceless(env, key, pipeline.targets, stored, holders) ==>
                r == Repaired
    {
      hide Plaintext, Closed, Accepting, CircuitDown, SourceOrder, IsContentHash, StoredEverywhere, L.TrueHolders, DistinctNames,
           Order.NoRepeats, OnlyObject, Healthy, ShuttingDown, Sourceless, NoneConfigured, Order.Elements;
      ghost var l0 := pipeline.ledger.View();
      OnlyTwice(l0, l0, l0, key);
      var targets := pipeline.targets;
      var names := OrderSources(stored);
      SourceOrderFacts(pipeline.Circuit(), stored);
      ghost var ready := IsContentHash(key) && Closed(pipeline.Circuit(), targets, stored) && Accepting(env, key, dests) && Undisturbed(tries);
      ghost var ending := IsContentHash(key) && Closed(pipeline.Circuit(), targets, stored) && Accepting(env, key, dests)
                          && ShuttingDown(tries);
      NoSources(env, key, targets, holders, names);
      var tried := false;
      for i := 0 to |names|
        invariant Valid() && L.TrueHolders(pipeline.ledger.View(), key, stored)
        invariant !tried <==> NoneConfigured(targets, Order.Elements(names[..i]))
        invariant Sourceless(env, key, targets, stored, holders) ==> pipeline.ledger.View() == l0
        invariant OnlyObject(l0, pipeline.ledger.View(), key)
        invariant !IsContentHash(key) ==> pipeline.ledger.View() == l0
        invariant Healthy(old(pipeline.Circuit()), targets) && Accepting(env, key, dests) ==> Healthy(pipeline.Circuit(), targets)
        invariant ready || !tried ==> pipeline.Circuit() == old(pipeline.Circuit())
        invariant tried && ending ==> !Sourceless(env, key, targets, stored, holders)
        invariant ready ==> Sourceless(env, key, targets, Order.Elements(names[..i]), holders)
      {
        var name := names[i];
        assert name in stored by { NamesStored(names, i); }
        OneSource(env, key, targets, stored, holders, names, i);
        if !Configured(targets, name) {
          continue;
        }
        tried := true;
        var t := tries(i);
        if ending { ShutDownAt(tries, i); }
        ghost var l1 := pipeline.ledger.View();
        var v := TryHolder(env, key, stored, holders(name), dests, t);
        OnlyTwice(l0, l1, pipeline.ledger.View(), key);
        if v.err.None? {
          return if v.done then Repaired else StillFailed;
        }
        if t.cancelled {
          return CancelledInFlight;
        }
        if t.expired {
          return StillFailed;
        }
      }
      AllSources(names, stored);
      return if tried then StillFailed else NoHolder;
    }

    /** The repairs of one page. `l` is the ledger as the page query saw it; `stops(id)` says
    whether the parent context has ended when `id` is about to be dispatched. */
    method RepairPage(ids: seq<Id>, l: L.Ledger, env: R.Env, holders: (Id, string) -> Holder, dests: Id -> Destinations,
                      tries: Id -> (nat -> Try), stops: Id -> bool, st0: Stats, ghost l0: L.Ledger, ghost visited: set<Id>, ghost smooth: bool)
      returns (st: Stats, stopped: bool, ghost reached: set<Id>)
      requires Valid() && WellSized(dests)
      requires PassInv(env, holders, pipeline.targets, smooth, l0, pipeline.ledger.View(), visited)
      requires Tally(env, holders, pipeline.targets, smooth, l0, visited, st0)
      requires smooth ==> Healthy(pipeline.Circuit(), pipeline.targets) && AllSmooth(env, dests, tries, stops)
      requires pipeline.ledger.View() == l && Order.NoRepeats(ids) && Order.Elements(ids) !! visited
      requires forall k :: 0 <= k < |ids| ==> ids[k] in Coverage.GapIds(l0, Names(pipeline.targets))
      modifies pipeline.ledger, pipeline.breaker
      ensures Valid() && PassInv(env, holders, pipeline.targets, smooth, l0, pipeline.ledger.View(), reached)
      ensures Tally(env, holders, pipeline.targets, smooth, l0, reached, st)
      ensures smooth ==> Healthy(pipeline.Circuit(), pipeline.targets)
      ensures reached <= visited + Order.Elements(ids) && (stopped ==> Interrupted(tries, stops))
      ensures !stopped ==> reached == visited + Order.Elements(ids)
    {
      hide PassInv, Tally, Healthy, AllSmooth, WellSized, OnlyObject, Order.NoRepeats, Coverage.GapIds, Coverage.StoredOn,
           StoredEverywhere, L.TrueHolders, Accepting, Undisturbed, IsContentHash, Plaintext, Closed, Repairable, DistinctNames, Bump;
      ghost var targets := pipeline.targets;
      st, reached := st0, visited;
      NothingVisited(ids, visited);
      for k := 0 to |ids|
        invariant Valid() && reached == visited + Order.Elements(ids[..k])
        invariant PassInv(env, holders, targets, smooth, l0, pipeline.ledger.View(), reached)
        invariant Tally(env, holders, targets, smooth, l0, reached, st)
        invariant smooth ==> Healthy(pipeline.Circuit(), targets)
      {
        var id := ids[k];
        if stops(id) {
          return st, true, reached;
        }
        var stored := Coverage.StoredOn(l, id, Names(pipeline.targets));
        ghost var before := pipeline.ledger.View();
        NextVisited(ids, visited, k);
        Untouched(env, holders, targets, smooth, l0, l, before, visited, reached, id);
        if smooth { SmoothFor(env, dests, tries, stops, id); HealthyIsClosed(pipeline.Circuit(), targets, stored); }
        SizedFor(dests, id);
        var r := Repair(env, id, stored, n => holders(id, n), dests(id), tries(id));
        RepairDecides(env, holders, targets, smooth, l0, before, pipeline.ledger.View(), reached, id, stored, r);
        if smooth { NotCancelled(tries(id)); }
        CountIt(env, holders, targets, smooth, l0, before, pipeline.ledger.View(), reached, id, stored, r, st);
        st, reached := Bump(st, r), reached + {id};
        if r == CancelledInFlight {
          return st, true, reached;
        }
      }
      assert ids[..|ids|] == ids;
      stopped := false;
    }

    /** One whole pass over the gap work-list, page by page, while its own repairs shrink the
    list. It adds no gap and counts none twice; unless it is interrupted it counts all. With
    accepting destinations, closed circuits and no interruption the objects left
    under-replicated are exactly those that no configured holder can supply, and the counters
    say how many were repaired, had no holder, and had none that was intact. */
    method Run(env: R.Env, holders: (Id, string) -> Holder, dests: Id -> Destinations, tries: Id -> (nat -> Try),
               stops: Id -> bool, pageSize: nat)
      returns (st: Stats, stopped: bool)
      requires Valid() && WellSized(dests) && pageSize > 0 && "" !in pipeline.ledger.objects
      modifies pipeline.ledger, pipeline.breaker
      ensures Valid()
      ensures Coverage.GapIds(pipeline.ledger.View(), Names(pipeline.targets)) <=
              Coverage.GapIds(old(pipeline.ledger.View()), Names(pipeline.targets))
      ensures Total(st) <= |Coverage.GapIds(old(pipeline.ledger.View()), Names(pipeline.targets))|
      ensures var gaps := Coverage.GapIds(old(pipeline.ledger.View()), Names(pipeline.targets));
              !stopped ==>
                && Total(st) == |gaps|
                && st.skipped == |Unheld(pipeline.targets, old(pipeline.ledger.View()), gaps)|
                && st.repaired <= |RepairableIn(env, holders, pipeline.targets, old(pipeline.ledger.View()), gaps)|
      ensures stopped ==> Interrupted(tries, stops)
      ensures var gaps, left := Coverage.GapIds(old(pipeline.ledger.View()), Names(pipeline.targets)),
                                Coverage.GapIds(pipeline.ledger.View(), Names(pipeline.targets));
              Healthy(old(pipeline.Circuit()), pipeline.targets) && AllSmooth(env, dests, tries, stops) ==>
                && !stopped && left == gaps - RepairableIn(env, holders, pipeline.targets, old(pipeline.ledger.View()), gaps)
                && st.repaired + |left| == |gaps| && st.cancelled == 0 && st.skipped + st.failed == |left|
    {
      hide PassInv, Tally, Healthy, AllSmooth, Interrupted, WellSized, Order.Less, Order.LessEq, Order.Elements, Order.NoRepeats, Order.Page,
           Order.Above, Order.SortSet, Coverage.GapIds, Repairable, RepairableIn, Unheld, DistinctNames, UpTo;
      var targets := pipeline.targets;
      ghost var l0 := pipeline.ledger.View();
      ghost var smooth := Healthy(pipeline.Circuit(), targets) && AllSmooth(env, dests, tries, stops);
      ghost var gaps := Coverage.GapIds(l0, Names(targets));
      st, stopped := Stats(0, 0, 0, 0), false;
      var after := "";
      PassBegins(env, holders, targets, smooth, l0);
      while true
        invariant Valid() && PassInv(env, holders, targets, smooth, l0, pipeline.ledger.View(), UpTo(gaps, after))
        invariant Tally(env, holders, targets, smooth, l0, UpTo(gaps, after), st)
        invariant smooth ==> Healthy(pipeline.Circuit(), targets)
        decreases Order.Above(gaps, after)
      {
        var l := L.Ledger(pipeline.ledger.objects, pipeline.ledger.statuses);
        var page := Order.Page(Coverage.GapIds(l, Names(targets)), after, pageSize);
        PageUnmoved(env, holders, targets, smooth, l0, l, after, pageSize);
        PageVisits(gaps, after, pageSize, page);
        var stop;
        ghost var reached;
        st, stop, reached := RepairPage(page, l, env, holders, dests, tries, stops, st, l0, UpTo(gaps, after), smooth);
        NoNewGaps(env, holders, targets, smooth, l0, pipeline.ledger.View(), reached);
        TallyBounds(env, holders, targets, smooth, l0, gaps, reached, st);
        if stop {
          if smooth { SmoothIsQuiet(env, dests, tries, stops); }
          return st, true;
        }
        if |page| < pageSize {
          if smooth {
            PassEnds(env, holders, targets, l0, pipeline.ledger.View());
            LeftOver(env, holders, targets, l0, gaps);
          }
          return st, false;
        }
        after := page[|page| - 1];
      }
    }
  }

  datatype Stats = Stats(repaired: nat, skipped: nat, failed: nat, cancelled: nat)

  function Bump(st: Stats, r: RepairOutcome): Stats {
    match r
    case Repaired => st.(repaired := st.repaired + 1)
    case NoHolder => st.(skipped := st.skipped + 1)
    case StillFailed => st.(failed := st.failed + 1)
    case CancelledInFlight => st.(cancelled := st.cancelled + 1)
  }

  function Total(st: Stats): nat {
    st.repaired + st.skipped + st.failed + st.cancelled
  }

  /** Those of `ids` that no configured target holds. */
  function Unheld(targets: seq<Target>, l: L.Ledger, ids: set<Id>): set<Id> {
    set id | id in ids && Coverage.StoredOn(l, id, Names(targets)) == {}
  }

  function RepairableIn(env: R.Env, holders: (Id, string) -> Holder, targets: seq<Target>, l: L.Ledger, ids: set<Id>): set<Id> {
    set id | id in ids && Repairable(env, holders, targets, l, id)
  }

  /** The counters after the visits of `visited`. */
  predicate Tally(env: R.Env, holders: (Id, string) -> Holder, targets: seq<Target>, smooth: bool, l0: L.Ledger, visited: set<Id>, st: Stats) {
    && Total(st) == |visited| && st.skipped == |Unheld(targets, l0, visited)|
    && st.repaired <= |RepairableIn(env, holders, targets, l0, visited)|
    && (smooth ==> st.repaired == |RepairableIn(env, holders, targets, l0, visited)| && st.cancelled == 0)
  }

  /** One visit moves one counter: skipped exactly without a holder, repaired only (and in a
  smooth pass exactly) with an intact one. */
  lemma CountIt(env: R.Env, holders: (Id, string) -> Holder, targets: seq<Target>, smooth: bool, l0: L.Ledger, l: L.Ledger, l1: L.Ledger,
                visited: set<Id>, id: Id, stored: set<string>, r: RepairOutcome, st: Stats)
    requires DistinctNames(targets) && Tally(env, holders, targets, smooth, l0, visited, st) && id !in visited
    requires id in Coverage.GapIds(l0, Names(targets)) && SameObject(l0, l, id) && stored == Coverage.StoredOn(l0, id, Names(targets))
    requires r == NoHolder <==> forall n :: n in stored ==> !Configured(targets, n)
    requires r == Repaired ==> StoredEverywhere(l1, id, targets)
    requires !IsContentHash(id) ==> l1 == l
    requires (forall n :: n in stored && Configured(targets, n) ==> Plaintext(env, id, holders(id, n)).None?) ==> l1 == l
    requires smooth ==> r != CancelledInFlight
    requires smooth && IsContentHash(id) && (exists n :: n in stored && Configured(targets, n) && Plaintext(env, id, holders(id, n)).Some?) ==>
               r == Repaired
    ensures Tally(env, holders, targets, smooth, l0, visited + {id}, Bump(st, r))
  {
    hide L.IsStored, Coverage.StoredOn, Plaintext, IsContentHash, StoredEverywhere, Names, Coverage.GapIds, DistinctNames, SameObject, Tally,
         Unheld, RepairableIn;
    HoldersConfigured(targets, l0, id);
    SomeHolder(stored);
    assert r == NoHolder <==> stored == {};
    if r == Repaired && !Repairable(env, holders, targets, l0, id) {
      StillEverywhere(l0, l, id, targets);
      EverywhereIsNoGap(l0, targets, id);
      assert false;
    }
    CountSets(env, holders, targets, smooth, l0, visited, id, r, st);
  }

  lemma CountSets(env: R.Env, holders: (Id, string) -> Holder, targets: seq<Target>, smooth: bool, l0: L.Ledger, visited: set<Id>, id: Id,
                  r: RepairOutcome, st: Stats)
    requires Tally(env, holders, targets, smooth, l0, visited, st) && id !in visited
    requires r == NoHolder <==> Coverage.StoredOn(l0, id, Names(targets)) == {}
    requires r == Repaired ==> Repairable(env, holders, targets, l0, id)
    requires smooth ==> r != CancelledInFlight && (Repairable(env, holders, targets, l0, id) ==> r == Repaired)
    ensures Tally(env, holders, targets, smooth, l0, visited + {id}, Bump(st, r))
  {
    hide Coverage.StoredOn, Repairable, Unheld, RepairableIn;
    UnheldMore(targets, l0, visited, id);
    RepairableMore(env, holders, targets, l0, visited, id);
  }

  lemma UnheldMore(targets: seq<Target>, l0: L.Ledger, visited: set<Id>, id: Id)
    requires id !in visited
    ensures |Unheld(targets, l0, visited + {id})| == |Unheld(targets, l0, visited)| + Bit(Coverage.StoredOn(l0, id, Names(targets)) == {})
  {
    hide Coverage.StoredOn, Names;
    var none := Coverage.StoredOn(l0, id, Names(targets)) == {};
    assert Unheld(targets, l0, visited + {id}) == Unheld(targets, l0, visited) + (if none then {id} else {});
  }

  lemma RepairableMore(env: R.Env, holders: (Id, string) -> Holder, targets: seq<Target>, l0: L.Ledger, visited: set<Id>, id: Id)
    requires id !in visited
    ensures |RepairableIn(env, holders, targets, l0, visited + {id})| ==
            |RepairableIn(env, holders, targets, l0, visited)| + Bit(Repairable(env, holders, targets, l0, id))
  {
    hide Repairable;
    var can := Repairable(env, holders, targets, l0, id);
    assert RepairableIn(env, holders, targets, l0, visited + {id}) ==
           RepairableIn(env, holders, targets, l0, visited) + (if can then {id} else {});
  }

  lemma NotCancelled(tries: nat -> Try)
    requires Undisturbed(tries)
    ensures forall i: nat :: !tries(i).cancelled
  {
  }

  lemma SomeHolder(stored: set<string>)
    ensures stored != {} ==> exists n :: n in stored
  {
  }

  lemma TallyBounds(env: R.Env, holders: (Id, string) -> Holder, targets: seq<Target>, smooth: bool, l0: L.Ledger, gaps: set<Id>,
                    reached: set<Id>, st: Stats)
    requires Tally(env, holders, targets, smooth, l0, reached, st) && reached <= gaps
    ensures Total(st) <= |gaps|
    ensures reached == gaps ==>
              && Total(st) == |gaps| && st.skipped == |Unheld(targets, l0, gaps)|
              && st.repaired <= |RepairableIn(env, holders, targets, l0, gaps)|
              && (smooth ==> st.repaired == |RepairableIn(env, holders, targets, l0, gaps)| && st.cancelled == 0)
  {
    hide Unheld, RepairableIn;
    Order.SubsetSize(reached, gaps);
  }

  lemma LeftOver(env: R.Env, holders: (Id, string) -> Holder, targets: seq<Target>, l0: L.Ledger, gaps: set<Id>)
    ensures var can := RepairableIn(env, holders, targets, l0, gaps); |can| + |gaps - can| == |gaps|
  {
    hide Repairable;
    var can := RepairableIn(env, holders, targets, l0, gaps);
    assert gaps == can + (gaps - can);
  }

  function Names(targets: seq<Target>): seq<string> {
    seq(|targets|, i requires 0 <= i < |targets| => targets[i].name)
  }

  ghost predicate WellSized(dests: Id -> Destinations) {
    forall id, p, pending :: dests(id)(p, pending).Fanned? ==> |dests(id)(p, pending).results| == |pending|
  }

  /** Destinations accept and nothing interrupts, for every object. */
  ghost predicate AllSmooth(env: R.Env, dests: Id -> Destinations, tries: Id -> (nat -> Try), stops: Id -> bool) {
    forall id :: Accepting(env, id, dests(id)) && Undisturbed(tries(id)) && !stops(id)
  }

  /** The parent context ends somewhere: before a dispatch, or seen by a repair in flight. */
  ghost predicate Interrupted(tries: Id -> (nat -> Try), stops: Id -> bool) {
    exists id :: stops(id) || exists i: nat :: tries(id)(i).cancelled
  }

  lemma SmoothFor(env: R.Env, dests: Id -> Destinations, tries: Id -> (nat -> Try), stops: Id -> bool, id: Id)
    requires AllSmooth(env, dests, tries, stops)
    ensures Accepting(env, id, dests(id)) && Undisturbed(tries(id)) && !stops(id)
  {
    hide Accepting, Undisturbed;
  }

  lemma SmoothIsQuiet(env: R.Env, dests: Id -> Destinations, tries: Id -> (nat -> Try), stops: Id -> bool)
    requires AllSmooth(env, dests, tries, stops)
    ensures !Interrupted(tries, stops)
  {
    hide Accepting;
    if Interrupted(tries, stops) {
      var id :| stops(id) || exists i: nat :: tries(id)(i).cancelled;
      SmoothFor(env, dests, tries, stops, id);
    }
  }

  lemma SizedFor(dests: Id -> Destinations, id: Id)
    requires WellSized(dests)
    ensures forall p, pending :: dests(id)(p, pending).Fanned? ==> |dests(id)(p, pending).results| == |pending|
  {
  }

  /** What a pass can repair: a well-formed key with an intact copy on a configured holder. */
  predicate Repairable(env: R.Env, holders: (Id, string) -> Holder, targets: seq<Target>, l: L.Ledger, id: Id) {
    IsContentHash(id) && exists n :: n in Coverage.StoredOn(l, id, Names(targets)) && Plaintext(env, id, holders(id, n)).Some?
  }

  /** The pass so far: what it has not visited stands as it did, and what it has visited is
  repaired, or as it was when it could not be. */
  ghost predicate PassInv(env: R.Env, holders: (Id, string) -> Holder, targets: seq<Target>, smooth: bool, l0: L.Ledger, l: L.Ledger, visited: set<Id>) {
    && l.objects.Keys == l0.objects.Keys
    && (forall id, n :: L.IsStored(l0, id, n) ==> L.IsStored(l, id, n))
    && (forall id :: id !in visited ==> SameObject(l0, l, id))
    && (smooth ==> forall id :: id in visited ==>
          if Repairable(env, holders, targets, l0, id) then StoredEverywhere(l, id, targets) else SameObject(l0, l, id))
  }

  /** The gaps a sweep has passed when its cursor stands at `after`. */
  function UpTo(gaps: set<Id>, after: Id): set<Id> {
    set id | id in gaps && Order.LessEq(id, after)
  }

  lemma PassBegins(env: R.Env, holders: (Id, string) -> Holder, targets: seq<Target>, smooth: bool, l0: L.Ledger)
    requires "" !in l0.objects
    ensures var none := UpTo(Coverage.GapIds(l0, Names(targets)), "");
            && none == {} && PassInv(env, holders, targets, smooth, l0, l0, none)
            && Tally(env, holders, targets, smooth, l0, none, Stats(0, 0, 0, 0))
  {
    hide L.IsStored, Repairable;
    assert UpTo(Coverage.GapIds(l0, Names(targets)), "") == {};
    assert Unheld(targets, l0, {}) == {} && RepairableIn(env, holders, targets, l0, {}) == {};
  }

  lemma NamesDistinct(targets: seq<Target>)
    requires DistinctNames(targets)
    ensures Order.NoRepeats(Names(targets))
  {
  }

  /** The same object is a gap in one ledger exactly when it is in the other. */
  lemma GapUnmoved(l: L.Ledger, l1: L.Ledger, targets: seq<Target>, id: Id)
    requires DistinctNames(targets) && SameObject(l, l1, id) && (id in l.objects <==> id in l1.objects)
    ensures id in Coverage.GapIds(l, Names(targets)) <==> id in Coverage.GapIds(l1, Names(targets))
  {
    hide L.IsStored, Coverage.GapIds, Order.NoRepeats, DistinctNames, Names;
    NamesDistinct(targets);
    Coverage.GapMeaning(l, id, Names(targets));
    Coverage.GapMeaning(l1, id, Names(targets));
  }

  /** Repairs behind the cursor do not change the next page. */
  lemma PageUnmoved(env: R.Env, holders: (Id, string) -> Holder, targets: seq<Target>, smooth: bool, l0: L.Ledger, l: L.Ledger, after: Id, limit: nat)
    requires DistinctNames(targets)
    requires PassInv(env, holders, targets, smooth, l0, l, UpTo(Coverage.GapIds(l0, Names(targets)), after))
    ensures Order.Page(Coverage.GapIds(l, Names(targets)), after, limit) == Order.Page(Coverage.GapIds(l0, Names(targets)), after, limit)
  {
    hide L.IsStored, Coverage.GapIds, DistinctNames, Names, Order.Less, Order.SortSet, Repairable, StoredEverywhere;
    var g0, g := Coverage.GapIds(l0, Names(targets)), Coverage.GapIds(l, Names(targets));
    forall id | Order.Less(after, id) ensures id in g <==> id in g0 {
      NotBoth(id, after);
      assert id !in UpTo(g0, after);
      GapUnmoved(l0, l, targets, id);
    }
    assert Order.Above(g, after) == Order.Above(g0, after);
  }

  lemma NotBoth(a: Id, b: Id)
    requires Order.Less(b, a)
    ensures !Order.LessEq(a, b)
  {
    hide Order.Less;
    if Order.Less(a, b) { Order.LessTransitive(a, b, a); }
    Order.LessIrreflexive(a);
  }

  /** What reading one page passes. */
  lemma PageVisits(gaps: set<Id>, after: Id, limit: nat, page: seq<Id>)
    requires limit > 0 && page == Order.Page(gaps, after, limit)
    ensures Order.NoRepeats(page) && Order.Elements(page) !! UpTo(gaps, after)
    ensures forall k :: 0 <= k < |page| ==> page[k] in gaps
    ensures |page| <= limit && UpTo(gaps, after) + Order.Elements(page) <= gaps
    ensures |page| < limit ==> UpTo(gaps, after) + Order.Elements(page) == gaps
    ensures |page| == limit ==>
              && UpTo(gaps, after) + Order.Elements(page) == UpTo(gaps, page[|page| - 1])
              && Order.Above(gaps, page[|page| - 1]) < Order.Above(gaps, after)
  {
    hide Order.Less, Order.SortSet, Order.Page, Order.Above, Order.NoRepeats;
    PageAhead(gaps, after, limit, page);
    var passed := UpTo(gaps, after) + Order.Elements(page);
    if |page| < limit {
      forall id | id in gaps ensures id in passed {
        Order.LessTotal(id, after);
        if Order.Less(after, id) { Order.PageCovers(gaps, after, limit, id); }
      }
      assert passed == gaps;
    } else {
      PagePasses(gaps, after, limit, page);
    }
  }

  /** A page holds gaps past the cursor, each once. */
  lemma PageAhead(gaps: set<Id>, after: Id, limit: nat, page: seq<Id>)
    requires page == Order.Page(gaps, after, limit)
    ensures Order.Ascending(page) && Order.NoRepeats(page) && |Order.Elements(page)| == |page| <= limit
    ensures Order.Elements(page) !! UpTo(gaps, after) && Order.Elements(page) <= gaps
    ensures forall k :: 0 <= k < |page| ==> page[k] in gaps && Order.Less(after, page[k])
  {
    hide Order.Less, Order.SortSet, Order.Page, Order.Above;
    Order.PageFacts(gaps, after, limit);
    Order.AscendingNoRepeats(page);
    Order.ElementsCount(page);
    forall id | id in Order.Elements(page) ensures id in gaps && id !in UpTo(gaps, after) {
      var k :| 0 <= k < |page| && page[k] == id;
      NotBoth(id, after);
    }
  }

  lemma PagePasses(gaps: set<Id>, after: Id, limit: nat, page: seq<Id>)
    requires limit > 0 && page == Order.Page(gaps, after, limit) && |page| == limit && Order.Ascending(page)
    requires forall k :: 0 <= k < |page| ==> page[k] in gaps && Order.Less(after, page[k])
    ensures UpTo(gaps, after) + Order.Elements(page) == UpTo(gaps, page[|page| - 1])
    ensures Order.Above(gaps, page[|page| - 1]) < Order.Above(gaps, after)
  {
    hide Order.Less, Order.SortSet, Order.Page;
    var last := page[|page| - 1];
    forall id ensures id in UpTo(gaps, after) + Order.Elements(page) <==> id in UpTo(gaps, last) {
      Order.LessTotal(id, after);
      if id in UpTo(gaps, after) && id != after { Order.LessTransitive(id, after, last); }
      if id in gaps && Order.LessEq(id, last) && Order.Less(after, id) { Order.PageCovers(gaps, after, limit, id); }
      if id in Order.Elements(page) {
        var k :| 0 <= k < |page| && page[k] == id;
        assert k < |page| - 1 ==> Order.Less(page[k], page[|page| - 1]);
      }
    }
    Order.LessIrreflexive(last);
    forall id | id in Order.Above(gaps, last) ensures id in Order.Above(gaps, after) {
      Order.LessTransitive(after, last, id);
    }
    assert last in Order.Above(gaps, after) && last !in Order.Above(gaps, last);
  }

  /** A pass only ever shrinks the work-list. */
  lemma NoNewGaps(env: R.Env, holders: (Id, string) -> Holder, targets: seq<Target>, smooth: bool, l0: L.Ledger, l: L.Ledger, visited: set<Id>)
    requires DistinctNames(targets) && PassInv(env, holders, targets, smooth, l0, l, visited)
    ensures Coverage.GapIds(l, Names(targets)) <= Coverage.GapIds(l0, Names(targets))
  {
    hide L.IsStored, Coverage.GapIds, DistinctNames, Names, Repairable, StoredEverywhere, SameObject, Order.NoRepeats;
    NamesDistinct(targets);
    forall id | id in Coverage.GapIds(l, Names(targets)) ensures id in Coverage.GapIds(l0, Names(targets)) {
      Coverage.GapMeaning(l, id, Names(targets));
      Coverage.GapMeaning(l0, id, Names(targets));
    }
  }

  /** What a smooth pass that visited every gap leaves. */
  lemma PassEnds(env: R.Env, holders: (Id, string) -> Holder, targets: seq<Target>, l0: L.Ledger, l: L.Ledger)
    requires DistinctNames(targets) && PassInv(env, holders, targets, true, l0, l, Coverage.GapIds(l0, Names(targets)))
    ensures var gaps := Coverage.GapIds(l0, Names(targets));
            Coverage.GapIds(l, Names(targets)) == gaps - RepairableIn(env, holders, targets, l0, gaps)
  {
    hide L.IsStored, Coverage.GapIds, DistinctNames, Names, Repairable, StoredEverywhere, SameObject;
    var g0 := Coverage.GapIds(l0, Names(targets));
    forall id ensures id in Coverage.GapIds(l, Names(targets)) <==> id in g0 && !Repairable(env, holders, targets, l0, id) {
      if id in g0 && Repairable(env, holders, targets, l0, id) {
        EverywhereIsNoGap(l, targets, id);
      } else {
        GapUnmoved(l0, l, targets, id);
      }
    }
  }

  lemma EverywhereIsNoGap(l: L.Ledger, targets: seq<Target>, id: Id)
    requires DistinctNames(targets) && StoredEverywhere(l, id, targets)
    ensures id !in Coverage.GapIds(l, Names(targets))
  {
    hide L.IsStored, Coverage.GapIds, Order.NoRepeats, DistinctNames;
    NamesDistinct(targets);
    Coverage.GapMeaning(l, id, Names(targets));
    forall t | t in Names(targets) ensures L.IsStored(l, id, t) {
      var i :| 0 <= i < |targets| && Names(targets)[i] == t;
      assert targets[i].name == t;
    }
  }

  lemma NothingVisited(ids: seq<Id>, visited: set<Id>)
    ensures visited + Order.Elements(ids[..0]) == visited
  {
  }

  lemma NextVisited(ids: seq<Id>, visited: set<Id>, k: nat)
    requires k < |ids| && Order.NoRepeats(ids) && Order.Elements(ids) !! visited
    ensures visited + Order.Elements(ids[..k + 1]) == visited + Order.Elements(ids[..k]) + {ids[k]}
    ensures ids[k] !in visited + Order.Elements(ids[..k]) && ids[k] !in visited
  {
    assert ids[..k + 1] == ids[..k] + [ids[k]];
    assert ids[k] in Order.Elements(ids);
  }

  lemma StoredOnSame(l: L.Ledger, l1: L.Ledger, id: Id, names: seq<string>)
    requires SameObject(l, l1, id)
    ensures Coverage.StoredOn(l, id, names) == Coverage.StoredOn(l1, id, names)
  {
    hide L.IsStored, Coverage.StoredOn;
    Coverage.StoredOnMeaning(l, id, names);
    Coverage.StoredOnMeaning(l1, id, names);
  }

  /** An object that the pass has not come to is as the page query saw it, and as it was at
  the start. */
  lemma Untouched(env: R.Env, holders: (Id, string) -> Holder, targets: seq<Target>, smooth: bool, l0: L.Ledger, l: L.Ledger, l1: L.Ledger,
                  visited: set<Id>, visited1: set<Id>, id: Id)
    requires id !in visited && id !in visited1
    requires PassInv(env, holders, targets, smooth, l0, l, visited) && PassInv(env, holders, targets, smooth, l0, l1, visited1)
    ensures SameObject(l0, l1, id) && L.TrueHolders(l1, id, Coverage.StoredOn(l, id, Names(targets)))
    ensures Coverage.StoredOn(l, id, Names(targets)) == Coverage.StoredOn(l0, id, Names(targets))
  {
    hide L.IsStored, Coverage.StoredOn, Repairable, StoredEverywhere;
    StoredOnSame(l0, l, id, Names(targets));
    Coverage.StoredOnMeaning(l0, id, Names(targets));
  }

  /** The visit of one object. */
  lemma RepairDecides(env: R.Env, holders: (Id, string) -> Holder, targets: seq<Target>, smooth: bool, l0: L.Ledger, l: L.Ledger, l1: L.Ledger,
                      visited: set<Id>, id: Id, stored: set<string>, r: RepairOutcome)
    requires PassInv(env, holders, targets, smooth, l0, l, visited) && id !in visited && id in Coverage.GapIds(l0, Names(targets))
    requires OnlyObject(l, l1, id) && stored == Coverage.StoredOn(l0, id, Names(targets))
    requires !IsContentHash(id) ==> l1 == l
    requires (forall n :: n in stored && Configured(targets, n) ==> Plaintext(env, id, holders(id, n)).None?) ==> l1 == l
    requires smooth && IsContentHash(id) && (exists n :: n in stored && Configured(targets, n) && Plaintext(env, id, holders(id, n)).Some?) ==>
               StoredEverywhere(l1, id, targets)
    ensures PassInv(env, holders, targets, smooth, l0, l1, visited + {id})
  {
    hide L.IsStored, Coverage.StoredOn, Plaintext, IsContentHash, StoredEverywhere, Names;
    HoldersConfigured(targets, l0, id);
    forall x, n | L.IsStored(l0, x, n) ensures L.IsStored(l1, x, n) {
      assert L.IsStored(l, x, n);
      assert x != id ==> SameObject(l, l1, x);
    }
    forall x | x !in visited + {id} ensures SameObject(l0, l1, x) {
      assert SameObject(l0, l, x) && SameObject(l, l1, x);
    }
    if smooth {
      forall x | x in visited + {id}
        ensures if Repairable(env, holders, targets, l0, x) then StoredEverywhere(l1, x, targets) else SameObject(l0, l1, x)
      {
        if x != id {
          StillEverywhere(l, l1, x, targets);
        }
      }
    }
  }

  lemma StillEverywhere(l: L.Ledger, l1: L.Ledger, id: Id, targets: seq<Target>)
    requires SameObject(l, l1, id)
    ensures StoredEverywhere(l, id, targets) <==> StoredEverywhere(l1, id, targets)
  {
    hide L.IsStored;
  }

  lemma HoldersConfigured(targets: seq<Target>, l: L.Ledger, id: Id)
    ensures forall n :: n in Coverage.StoredOn(l, id, Names(targets)) ==> Configured(targets, n)
  {
    hide L.IsStored, Coverage.StoredOn;
    Coverage.StoredOnMeaning(l, id, Names(targets));
    forall n | n in Names(targets) ensures Configured(targets, n) {
      var i :| 0 <= i < |targets| && Names(targets)[i] == n;
      assert targets[i].name == n;
    }
  }

  lemma StillTrue(l: L.Ledger, obj: L.ObjectMeta, rows: seq<L.TargetStatus>, now: C.Time, l1: L.Ledger, key: Id, stored: set<string>)
    requires L.Recorded(l, obj, rows, now, l1) && L.TrueHolders(l, key, stored)
    ensures L.TrueHolders(l1, key, stored)
  {
    hide L.Recorded, L.IsStored;
    forall n | n in stored ensures L.IsStored(l1, key, n) {
      L.RecordKeepsStored(l, obj, rows, now, l1, key, n);
    }
  }

  lemma NothingFetched(item: Item, b: Option<C.Breaker>, pending: seq<Target>, skipped: bool, ctx: Context, clock: nat -> C.Time)
    ensures Conclude(item, b, pending, skipped, FetchFailed(false), ctx, clock).write == None
  {
  }

  /** The two buckets hold exactly the names seen so far, by circuit state. */
  ghost predicate Split(b: Option<C.Breaker>, seen: set<string>, healthy: seq<string>, down: seq<string>) {
    && Order.NoRepeats(healthy) && Order.NoRepeats(down)
    && Order.Elements(healthy) == seen - DownOf(b, seen) && Order.Elements(down) == DownOf(b, seen)
  }

  lemma SplitStart(b: Option<C.Breaker>)
    ensures Split(b, {}, [], [])
  {
  }

  lemma SplitStep(b: Option<C.Breaker>, seen: set<string>, healthy: seq<string>, down: seq<string>, name: string)
    requires Split(b, seen, healthy, down) && name !in seen
    ensures if CircuitDown(b, name) then Split(b, seen + {name}, healthy, down + [name]) else Split(b, seen + {name}, healthy + [name], down)
  {
    hide Order.NoRepeats, Order.Elements, CircuitDown;
    if CircuitDown(b, name) {
      assert DownOf(b, seen + {name}) == DownOf(b, seen) + {name};
      Appended(down, name);
    } else {
      assert DownOf(b, seen + {name}) == DownOf(b, seen);
      Appended(healthy, name);
    }
  }

  lemma SplitEnd(b: Option<C.Breaker>, stored: set<string>, healthy: seq<string>, down: seq<string>)
    requires Split(b, stored, healthy, down)
    ensures Order.Sort(healthy) + Order.Sort(down) == SourceOrder(b, stored)
  {
    hide Order.Sort, Order.SortSet, Order.NoRepeats, Order.Elements, DownOf;
    SortIsSortSet(healthy, stored - DownOf(b, stored));
    SortIsSortSet(down, DownOf(b, stored));
  }

  lemma InDownOf(b: Option<C.Breaker>, stored: set<string>, n: string)
    requires n in stored
    ensures n in DownOf(b, stored) <==> CircuitDown(b, n)
  {
  }

  lemma DownAreStored(b: Option<C.Breaker>, stored: set<string>)
    ensures DownOf(b, stored) <= stored
  {
  }

  lemma Appended(s: seq<string>, x: string)
    requires Order.NoRepeats(s) && x !in Order.Elements(s)
    ensures Order.NoRepeats(s + [x]) && Order.Elements(s + [x]) == Order.Elements(s) + {x}
  {
  }
}
