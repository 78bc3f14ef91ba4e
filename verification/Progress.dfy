/** The protocol can do its work: from any state of the system, a claimable row whose object
exists can be taken to done. */
module Progress {
  import opened Content
  import F = Fanout
  import FL = FanoutLiveness
  import L = LedgerStore
  import O = OutboxStore
  import P = Pipeline
  import opened Protocol

  /** Steps of the system from one world to another. */
  ghost predicate Leads(c: Config, trace: seq<World>, acts: seq<Action>) {
    |trace| == |acts| + 1 && forall k :: 0 <= k < |acts| ==> Next(c, trace[k], acts[k], trace[k + 1])
  }

  lemma OneMore(c: Config, trace: seq<World>, acts: seq<Action>, a: Action, w: World) returns (trace1: seq<World>, acts1: seq<Action>)
    requires Leads(c, trace, acts) && |trace| == |acts| + 1 && Next(c, trace[|acts|], a, w)
    ensures Leads(c, trace1, acts1) && |trace1| == |acts1| + 1 && trace1[0] == trace[0] && trace1[|acts1|] == w
  {
    hide Next;
    trace1, acts1 := trace + [w], acts + [a];
    forall k | 0 <= k < |acts1| ensures Next(c, trace1[k], acts1[k], trace1[k + 1]) {
      if k < |acts| {
        assert trace1[k] == trace[k] && trace1[k + 1] == trace[k + 1] && acts1[k] == acts[k];
      }
    }
  }

  /** A ledger write always has a result. */
  lemma WriteExists(l: L.Ledger, obj: L.ObjectMeta, rows: seq<L.TargetStatus>, now: int) returns (l1: L.Ledger)
    requires L.DistinctTargets(rows)
    ensures L.Recorded(l, obj, rows, now, l1)
  {
    var id := obj.externalID;
    var listed := set j | 0 <= j < |rows| :: (id, rows[j].target);
    var statuses := map key | key in l.statuses.Keys + listed ::
      if j :| 0 <= j < |rows| && key == (id, rows[j].target) then L.Merge(l.statuses, id, rows[j], now) else l.statuses[key];
    l1 := L.Ledger(L.MergeObject(l.objects, obj), statuses);
  }

  /** Worker `k` handles row `r` in progress and has come to `stage`. */
  predicate Handles(w: World, k: nat, r: O.RowId, id: Id, stage: Stage) {
    && r in w.rows && w.rows[r].status.InProgress? && w.rows[r].externalID == id
    && k in w.workers && w.workers[k].row == Some(r) && w.workers[k].item.externalID == id && w.workers[k].stage == stage
  }

  lemma ClaimIt(c: Config, w: World, k: nat, r: O.RowId, now: int, size: int) returns (w1: World)
    requires k !in w.workers && r in w.rows && O.Claimable(w.rows[r], now)
    ensures Next(c, w, Claim(k, r, now), w1) && Handles(w1, k, r, w.rows[r].externalID, Begun)
  {
    w1 := w.(rows := O.Apply(c.lim, w.rows, O.Claim({r}, now)),
          workers := w.workers[k := Worker(Some(r), P.Item(w.rows[r].externalID, size), Begun)]);
    assert Next(c, w, Claim(k, r, now), w1);
  }

  lemma PlanIt(c: Config, w: World, k: nat, r: O.RowId, id: Id) returns (mid: World, w1: World, clock: nat -> int)
    requires Handles(w, k, r, id, Begun) && IsContentHash(id) && c.targets != [] && P.DistinctNames(c.targets)
    ensures Next(c, w, ReadStored(k), mid) && Next(c, mid, MakePlan(k, None, clock), w1)
    ensures Handles(w1, k, r, id, Finished(P.Verdict(true, false, None))) ||
            (w1.workers[k].stage.Planned? && w1.workers[k].stage.pending != [] && P.DistinctNames(w1.workers[k].stage.pending)
             && Handles(w1, k, r, id, Planned(w1.workers[k].stage.pending, false)))
  {
    hide P.PlanTo, P.DistinctNames, IsContentHash;
    clock := (_: nat) => 0;
    var stored := L.StoredIn(w.ledger.statuses, id);
    mid := Move(w, k, Knows(stored));
    var plan := P.PlanTo(c.targets, stored, None, clock, |c.targets|);
    P.PlanSkipped(c.targets, stored, None, clock, |c.targets|);
    P.PlanPending(c.targets, stored, None, clock, |c.targets|);
    assert !plan.skipped;
    w1 := Move(mid, k, if plan.pending == [] then Finished(P.Verdict(true, false, None)) else Planned(plan.pending, false));
  }

  /** The plaintext reaches every pending target. */
  lemma FanIt(c: Config, w: World, k: nat, r: O.RowId, id: Id, pending: seq<P.Target>, p: Bytes) returns (a: Action, w1: World)
    requires Handles(w, k, r, id, Planned(pending, false)) && pending != [] && Verified(c.hash, id, c.cap, p)
    ensures Next(c, w, a, w1) && k in w1.workers && w1.workers[k].stage.Answered?
    ensures var fan := w1.workers[k].stage.fan;
            && Handles(w1, k, r, id, Answered(pending, false, fan)) && fan.Fanned? && |fan.results| == |pending|
            && !fan.ferr && P.AllStored(fan.results, |pending|)
  {
    hide F.Exec;
    var item := w.workers[k].item;
    var job := JobFor(c, item, pending, |p| + 1, false);
    assert FL.Concat([p]) == p && FL.Fits(job.buffer, 0, [p]) by { OnePart(job.buffer, p); }
    var run, s := FL.GoodSourceStores(job, p, [p], EOF);
    a := FanOut(k, |p| + 1, false, run);
    w1 := Move(w, k, Answered(pending, false, FanOf(s))).(committed := w.committed + Commits(item.externalID, pending, s));
    assert FanStep(c, w, a, w1);
  }

  lemma OnePart(buffer: nat, p: Bytes)
    requires buffer == |p| + 1
    ensures FL.Concat([p]) == p && FL.Fits(buffer, 0, [p])
  {
    assert [p][1..] == [] && [p][0] == p && p + [] == p;
    assert FL.Fits(buffer, |p|, []);
  }

  lemma RecordIt(c: Config, w: World, k: nat, r: O.RowId, id: Id, pending: seq<P.Target>, fan: P.Fan) returns (a: Action, w1: World)
    requires Handles(w, k, r, id, Answered(pending, false, fan)) && pending != [] && P.DistinctNames(pending)
    requires fan.Fanned? && |fan.results| == |pending| && !fan.ferr && P.AllStored(fan.results, |pending|)
    ensures Next(c, w, a, w1) && Handles(w1, k, r, id, Finished(P.Verdict(true, false, None)))
  {
    hide P.Conclude, P.DistinctNames, L.Recorded, L.DistinctTargets, P.AllStored;
    var item, clock := w.workers[k].item, (_: nat) => 0;
    a := Record(k, None, P.Live, clock, 0, false);
    var out := P.Conclude(item, None, pending, false, fan, P.Live, clock);
    P.DoneExactly(item, None, pending, false, fan, P.Live, clock);
    P.ConcludeWrites(item, None, pending, false, fan, P.Live, clock);
    var l1 := WriteExists(w.ledger, out.write.value.0, out.write.value.1, 0);
    w1 := Move(w, k, Finished(out.verdict)).(ledger := l1);
    assert RecordStep(c, w, a, w1);
  }

  lemma SettleIt(c: Config, w: World, k: nat, r: O.RowId, id: Id) returns (w1: World)
    requires Handles(w, k, r, id, Finished(P.Verdict(true, false, None)))
    ensures Next(c, w, Settle(k, false, 0, 0, false), w1) && r in w1.rows && w1.rows[r].status.IsDone? && w1.rows[r].externalID == id
  {
    hide O.Pow2, O.Backoff;
    w1 := w.(workers := w.workers - {k}, rows := O.Apply(c.lim, w.rows, O.Settle(r, HowToSettle(P.Verdict(true, false, None), false, 0), 0)));
  }

  /** From any world, whatever is in flight, a free worker can take any claimable row with a
  well-formed key, whose plaintext exists, all the way to done. */
  lemma ClaimableCanBeDone(c: Config, w: World, k: nat, r: O.RowId, now: int, p: Bytes) returns (trace: seq<World>, acts: seq<Action>)
    requires c.targets != [] && P.DistinctNames(c.targets) && k !in w.workers
    requires r in w.rows && O.Claimable(w.rows[r], now) && IsContentHash(w.rows[r].externalID)
    requires Verified(c.hash, w.rows[r].externalID, c.cap, p)
    ensures Leads(c, trace, acts) && |trace| == |acts| + 1 && trace[0] == w
    ensures var w1 := trace[|acts|]; r in w1.rows && w1.rows[r].status.IsDone? && w1.rows[r].externalID == w.rows[r].externalID
  {
    hide Next, IsContentHash, P.DistinctNames, O.Claimable, Leads;
    var id := w.rows[r].externalID;
    trace, acts := [w], [];
    AtStart(c, w);
    var w1 := ClaimIt(c, w, k, r, now, 0);
    trace, acts := OneMore(c, trace, acts, Claim(k, r, now), w1);
    var mid, w2, clock := PlanIt(c, w1, k, r, id);
    trace, acts := OneMore(c, trace, acts, ReadStored(k), mid);
    trace, acts := OneMore(c, trace, acts, MakePlan(k, None, clock), w2);
    if !w2.workers[k].stage.Finished? {
      var pending := w2.workers[k].stage.pending;
      var a, w3 := FanIt(c, w2, k, r, id, pending, p);
      trace, acts := OneMore(c, trace, acts, a, w3);
      a, w2 := RecordIt(c, w3, k, r, id, pending, w3.workers[k].stage.fan);
      trace, acts := OneMore(c, trace, acts, a, w2);
    }
    var w4 := SettleIt(c, w2, k, r, id);
    trace, acts := OneMore(c, trace, acts, Settle(k, false, 0, 0, false), w4);
  }

  lemma AtStart(c: Config, w: World)
    ensures Leads(c, [w], [])
  {
  }
}
