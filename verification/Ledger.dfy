/** The ledger: one row per object, one status row per (object, target), and the single
atomic statement that writes both. */
module LedgerStore {
  import opened Content

  datatype State = StateStored | StateFailed

  datatype Status = Status(state: State, storedBytes: int, verifiedAt: Option<int>)

  datatype TargetStatus = TargetStatus(target: string, state: State, storedBytes: int)

  datatype ObjectMeta = ObjectMeta(externalID: Id, size: int, sizeVerified: bool)

  datatype Ledger = Ledger(objects: map<Id, int>, statuses: map<(Id, string), Status>)

  const EMPTY := Ledger(map[], map[])

  predicate IsStored(l: Ledger, id: Id, target: string) {
    (id, target) in l.statuses && l.statuses[(id, target)].state.StateStored?
  }

  function StoredIn(statuses: map<(Id, string), Status>, id: Id): set<string> {
    set key | key in statuses && key.0 == id && statuses[key].state.StateStored? :: key.1
  }

  /** A stored set that a caller holds is true of the ledger. */
  predicate TrueHolders(l: Ledger, id: Id, stored: set<string>) {
    forall n :: n in stored ==> IsStored(l, id, n)
  }

  /** The foreign key from a status row to its object row. */
  predicate StatusesHaveObjects(l: Ledger) {
    forall key :: key in l.statuses ==> key.0 in l.objects
  }

  predicate DistinctTargets(rows: seq<TargetStatus>) {
    forall i, j :: 0 <= i < j < |rows| ==> rows[i].target != rows[j].target
  }

  /** One upserted status row. */
  function Merge(m: map<(Id, string), Status>, id: Id, row: TargetStatus, now: int): Status {
    var stored := row.state.StateStored?;
    if (id, row.target) in m then
      var had := m[(id, row.target)];
      Status(if had.state.StateStored? && !stored then had.state else row.state,
             if stored then row.storedBytes else had.storedBytes,
             if stored then Some(now) else had.verifiedAt)
    else
      Status(row.state, row.storedBytes, if stored then Some(now) else None)
  }

  /** The object row: inserted when absent, its size corrected by a verified value only. */
  function MergeObject(objects: map<Id, int>, obj: ObjectMeta): map<Id, int> {
    if obj.externalID !in objects || obj.sizeVerified then objects[obj.externalID := obj.size] else objects
  }

  /** The statement as a relation on the whole tables: every listed target is merged, every
  other status row is untouched. */
  ghost predicate Recorded(l: Ledger, obj: ObjectMeta, rows: seq<TargetStatus>, now: int, l1: Ledger) {
    var id := obj.externalID;
    && l1.objects == MergeObject(l.objects, obj)
    && l1.statuses.Keys == l.statuses.Keys + (set k | 0 <= k < |rows| :: (id, rows[k].target))
    && (forall k :: 0 <= k < |rows| ==> l1.statuses[(id, rows[k].target)] == Merge(l.statuses, id, rows[k], now))
    && (forall key :: key in l.statuses && (key.0 != id || forall k :: 0 <= k < |rows| ==> rows[k].target != key.1) ==>
          l1.statuses[key] == l.statuses[key])
  }

  class LedgerRepo {
    var objects: map<Id, int>
    var statuses: map<(Id, string), Status>

    ghost function View(): Ledger reads this { Ledger(objects, statuses) }

    constructor ()
      ensures View() == EMPTY
    {
      objects, statuses := map[], map[];
    }

    /** An upsert cannot touch one row twice, so a repeated target fails the statement and
    nothing is written. `fault` is any other database error. */
    method RecordBackup(obj: ObjectMeta, rows: seq<TargetStatus>, now: int, fault: bool) returns (err: bool)
      modifies this
      ensures err == (fault || !DistinctTargets(rows))
      ensures err ==> View() == old(View())
      ensures !err ==> Recorded(old(View()), obj, rows, now, View())
    {
      if fault || !DistinctTargets(rows) {
        return true;
      }
      var id := obj.externalID;
      var merged := statuses;
      for k := 0 to |rows|
        invariant merged.Keys == statuses.Keys + (set j | 0 <= j < k :: (id, rows[j].target))
        invariant forall j :: 0 <= j < k ==> merged[(id, rows[j].target)] == Merge(statuses, id, rows[j], now)
        invariant forall key :: key in statuses && (key.0 != id || forall j :: 0 <= j < k ==> rows[j].target != key.1) ==>
                    merged[key] == statuses[key]
      {
        merged := merged[(id, rows[k].target) := Merge(statuses, id, rows[k], now)];
      }
      objects := MergeObject(objects, obj);
      statuses := merged;
      return false;
    }

    function StoredTargets(externalID: Id): (r: set<string>)
      reads this
      ensures forall t :: t in r <==> IsStored(View(), externalID, t)
    {
      StoredIn(statuses, externalID)
    }
  }

  // ---- every sequence of writes ------------------------------------------------

  /** One write keeps every stored status, and adds exactly the listed stored ones. */
  lemma RecordKeepsStored(l: Ledger, obj: ObjectMeta, rows: seq<TargetStatus>, now: int, l1: Ledger, id: Id, t: string)
    requires Recorded(l, obj, rows, now, l1)
    ensures IsStored(l1, id, t) <==>
              IsStored(l, id, t) || (id == obj.externalID && TargetStored(rows, t))
  {
    if id == obj.externalID {
      if k :| 0 <= k < |rows| && rows[k].target == t {
        assert l1.statuses[(id, t)] == Merge(l.statuses, id, rows[k], now);
        forall j | 0 <= j < |rows| && rows[j].target == t
          ensures Merge(l.statuses, id, rows[j], now) == Merge(l.statuses, id, rows[k], now)
        {
          assert l1.statuses[(id, rows[j].target)] == Merge(l.statuses, id, rows[j], now);
        }
      }
    }
  }

  predicate TargetStored(rows: seq<TargetStatus>, t: string) {
    exists k :: 0 <= k < |rows| && rows[k].target == t && rows[k].state.StateStored?
  }

  /** What the pipeline writes: a stored row only together with a verified size, and a
  verified size only for a plaintext that hashes to the key. */
  ghost predicate PipelineWrite(hash: Hash, obj: ObjectMeta, rows: seq<TargetStatus>) {
    && ((exists t :: TargetStored(rows, t)) ==> obj.sizeVerified)
    && (obj.sizeVerified ==> exists p :: hash(p) == obj.externalID && obj.size == |p|)
  }

  datatype Write = Write(obj: ObjectMeta, rows: seq<TargetStatus>, now: int)

  /** A history of the ledger: `trace[k+1]` is `trace[k]` after write `k`. */
  ghost predicate History(trace: seq<Ledger>, writes: seq<Write>) {
    && |trace| == |writes| + 1
    && (forall k :: 0 <= k < |writes| ==> Recorded(trace[k], writes[k].obj, writes[k].rows, writes[k].now, trace[k + 1]))
  }

  /** Stored never regresses, over any sequence of writes. */
  lemma {:induction false} StoredNeverRegresses(trace: seq<Ledger>, writes: seq<Write>, i: nat, j: nat, id: Id, t: string)
    requires History(trace, writes) && i <= j < |trace| && IsStored(trace[i], id, t)
    ensures IsStored(trace[j], id, t)
  {
    if i < j {
      StoredNeverRegresses(trace, writes, i, j - 1, id, t);
      var w := writes[j - 1];
      RecordKeepsStored(trace[j - 1], w.obj, w.rows, w.now, trace[j], id, t);
    }
  }

  /** Every object with a stored copy carries its true plaintext length. */
  ghost predicate SizesTrue(hash: Hash, l: Ledger) {
    forall id, t, p :: IsStored(l, id, t) && hash(p) == id ==> id in l.objects && l.objects[id] == |p|
  }

  lemma RecordKeepsSizes(hash: Hash, l: Ledger, obj: ObjectMeta, rows: seq<TargetStatus>, now: int, l1: Ledger)
    requires CollisionFree(hash) && Recorded(l, obj, rows, now, l1) && PipelineWrite(hash, obj, rows)
    requires StatusesHaveObjects(l) && SizesTrue(hash, l)
    ensures StatusesHaveObjects(l1) && SizesTrue(hash, l1)
  {
    forall id, t, p | IsStored(l1, id, t) && hash(p) == id
      ensures id in l1.objects && l1.objects[id] == |p|
    {
      RecordKeepsStored(l, obj, rows, now, l1, id, t);
    }
  }

  /** Over every sequence of pipeline writes from an empty ledger, an object with at least
  one stored target has the size of its plaintext, whatever all-fail retries follow. */
  lemma {:induction false} SizesStayTrue(hash: Hash, trace: seq<Ledger>, writes: seq<Write>)
    requires CollisionFree(hash) && History(trace, writes) && trace[0] == EMPTY
    requires forall k :: 0 <= k < |writes| ==> PipelineWrite(hash, writes[k].obj, writes[k].rows)
    ensures StatusesHaveObjects(trace[|writes|]) && SizesTrue(hash, trace[|writes|])
    decreases |writes|
  {
    if writes != [] {
      var n := |writes| - 1;
      var before, w := writes[..n], writes[n];
      assert History(trace[..n + 1], before) by {
        assert forall k :: 0 <= k < n ==> Recorded(trace[k], writes[k].obj, writes[k].rows, writes[k].now, trace[k + 1]);
      }
      SizesStayTrue(hash, trace[..n + 1], before);
      RecordKeepsSizes(hash, trace[n], w.obj, w.rows, w.now, trace[n + 1]);
    }
  }

  // ---- the tables as a function of their history -----------------------------------

  /** The row a write lists for a target. */
  function Listed(w: Write, id: Id, t: string): Option<TargetStatus> {
    if w.obj.externalID == id then Find(w.rows, t) else None
  }

  function Find(rows: seq<TargetStatus>, t: string): Option<TargetStatus> {
    if rows == [] then None else if rows[0].target == t then Some(rows[0]) else Find(rows[1..], t)
  }

  lemma {:induction false} FindListed(rows: seq<TargetStatus>, t: string)
    requires DistinctTargets(rows)
    ensures Find(rows, t).Some? <==> exists k :: 0 <= k < |rows| && rows[k].target == t
    ensures forall k :: 0 <= k < |rows| && rows[k].target == t ==> Find(rows, t) == Some(rows[k])
  {
    if rows != [] {
      FindListed(rows[1..], t);
      assert forall k :: 0 < k < |rows| ==> rows[k] == rows[1..][k - 1];
    }
  }

  /** Reference: the bytes and time of the latest write that stored the object on a target. */
  function LatestStored(writes: seq<Write>, id: Id, t: string): Option<(int, int)> {
    if writes == [] then None else
      var w := writes[|writes| - 1];
      var row := Listed(w, id, t);
      if row.Some? && row.value.state.StateStored? then Some((row.value.storedBytes, w.now))
      else LatestStored(writes[..|writes| - 1], id, t)
  }

  /** Reference: the first row any write listed for a target. */
  function FirstListed(writes: seq<Write>, id: Id, t: string): Option<TargetStatus> {
    if writes == [] then None else
      var before := FirstListed(writes[..|writes| - 1], id, t);
      if before.Some? then before else Listed(writes[|writes| - 1], id, t)
  }

  /** Reference: the size of an object is the latest verified one, or else the first one told. */
  function SizeTold(writes: seq<Write>, id: Id): Option<int> {
    if writes == [] then None else
      var before, obj := SizeTold(writes[..|writes| - 1], id), writes[|writes| - 1].obj;
      if obj.externalID == id && (before.None? || obj.sizeVerified) then Some(obj.size) else before
  }

  function StatusOf(writes: seq<Write>, id: Id, t: string): Option<Status> {
    var first, stored := FirstListed(writes, id, t), LatestStored(writes, id, t);
    if first.None? then None
    else if stored.Some? then Some(Status(StateStored, stored.value.0, Some(stored.value.1)))
    else Some(Status(StateFailed, first.value.storedBytes, None))
  }

  function Lookup<K, V>(m: map<K, V>, k: K): Option<V> {
    if k in m then Some(m[k]) else None
  }

  /** One write, seen from one status row. */
  lemma StatusStep(l: Ledger, w: Write, l1: Ledger, id: Id, t: string)
    requires Recorded(l, w.obj, w.rows, w.now, l1) && DistinctTargets(w.rows)
    ensures var had, row := Lookup(l.statuses, (id, t)), Listed(w, id, t);
            Lookup(l1.statuses, (id, t)) ==
              if row.None? then had
              else if row.value.state.StateStored? then Some(Status(StateStored, row.value.storedBytes, Some(w.now)))
              else if had.Some? then had
              else Some(Status(StateFailed, row.value.storedBytes, None))
  {
    hide Find, DistinctTargets;
    FindListed(w.rows, t);
    if Listed(w, id, t).Some? {
      var k :| 0 <= k < |w.rows| && w.rows[k].target == t;
      assert l1.statuses[(id, t)] == Merge(l.statuses, id, w.rows[k], w.now);
    } else {
      assert (id, t) in l1.statuses <==> (id, t) in l.statuses;
    }
  }

  lemma {:induction false} StoredWasListed(writes: seq<Write>, id: Id, t: string)
    ensures LatestStored(writes, id, t).Some? ==> FirstListed(writes, id, t).Some?
  {
    if writes != [] {
      StoredWasListed(writes[..|writes| - 1], id, t);
    }
  }

  /** Over every sequence of writes, each status row says: stored with the bytes and the time of
  the latest write that stored it, or never stored; and each object row has the size its
  writes told. */
  lemma {:induction false} LedgerIsItsHistory(trace: seq<Ledger>, writes: seq<Write>, id: Id, t: string)
    requires History(trace, writes) && trace[0] == EMPTY
    requires forall k :: 0 <= k < |writes| ==> DistinctTargets(writes[k].rows)
    ensures Lookup(trace[|writes|].statuses, (id, t)) == StatusOf(writes, id, t)
    ensures Lookup(trace[|writes|].objects, id) == SizeTold(writes, id)
    decreases |writes|
  {
    if writes != [] {
      hide Recorded, Merge, DistinctTargets, Listed;
      var n := |writes| - 1;
      var before, w := writes[..n], writes[n];
      assert History(trace[..n + 1], before) by {
        assert forall k :: 0 <= k < n ==> Recorded(trace[k], writes[k].obj, writes[k].rows, writes[k].now, trace[k + 1]);
      }
      LedgerIsItsHistory(trace[..n + 1], before, id, t);
      assert Recorded(trace[n], w.obj, w.rows, w.now, trace[n + 1]);
      StatusStep(trace[n], w, trace[n + 1], id, t);
      ObjectStep(trace[n], w, trace[n + 1], id);
      StoredWasListed(before, id, t);
    }
  }

  lemma ObjectStep(l: Ledger, w: Write, l1: Ledger, id: Id)
    requires Recorded(l, w.obj, w.rows, w.now, l1)
    ensures Lookup(l1.objects, id) ==
            if w.obj.externalID == id && (id !in l.objects || w.obj.sizeVerified) then Some(w.obj.size) else Lookup(l.objects, id)
  {
  }
}
