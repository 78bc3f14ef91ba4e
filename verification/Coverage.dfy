/** The two readings of under-replication: the coverage gauge counts it by subtraction, the
gap sweep lists it page by page. */
module Coverage {
  import opened Content
  import opened Order
  import opened Keyset
  import opened LedgerStore

  /** The status rows of `id` with state='stored' AND target = ANY(targets). */
  function Matching(l: Ledger, id: Id, targets: seq<string>): set<(Id, string)> {
    set key | key in l.statuses && key.0 == id && key.1 in targets && l.statuses[key].state.StateStored?
  }

  /** The array_agg column: the current targets that hold `id`. */
  function StoredOn(l: Ledger, id: Id, targets: seq<string>): set<string> {
    set key | key in Matching(l, id, targets) :: key.1
  }

  /** HAVING count(*) FILTER (...) < target_count. */
  function GapIds(l: Ledger, targets: seq<string>): set<Id> {
    set id | id in l.objects && |Matching(l, id, targets)| < |targets|
  }

  /** GROUP BY "externalID" HAVING count(*) >= target_count, over the matching rows. */
  function FullyReplicated(l: Ledger, targets: seq<string>): set<Id> {
    set key | key in l.statuses && key in Matching(l, key.0, targets) && |Matching(l, key.0, targets)| >= |targets| :: key.0
  }

  function CoverageGaps(l: Ledger, targets: seq<string>): int {
    if targets == [] then 0 else |l.objects| - |FullyReplicated(l, targets)|
  }

  /** The gauge is exactly the number of objects in the work-list. */
  lemma GaugeCountsGaps(l: Ledger, targets: seq<string>)
    requires StatusesHaveObjects(l)
    ensures CoverageGaps(l, targets) == |GapIds(l, targets)|
  {
    if targets == [] {
      assert GapIds(l, targets) == {};
    } else {
      var full, gaps := FullyReplicated(l, targets), GapIds(l, targets);
      forall id ensures id in full <==> id in l.objects && |Matching(l, id, targets)| >= |targets| {
        FullyReplicatedMeaning(l, id, targets);
      }
      PartitionSize(l.objects.Keys, full, gaps);
    }
  }

  lemma PartitionSize(whole: set<Id>, a: set<Id>, b: set<Id>)
    requires forall x :: x in whole <==> x in a || x in b
    requires a !! b
    ensures |whole| == |a| + |b|
  {
    assert whole == a + b;
  }

  lemma FullyReplicatedMeaning(l: Ledger, id: Id, targets: seq<string>)
    requires StatusesHaveObjects(l) && targets != []
    ensures id in FullyReplicated(l, targets) <==> id in l.objects && |Matching(l, id, targets)| >= |targets|
  {
    if id in l.objects && |Matching(l, id, targets)| >= |targets| {
      var key :| key in Matching(l, id, targets);
      assert key.0 == id && key in l.statuses;
    }
  }

  lemma {:induction false} ProjectionSize(rows: set<(Id, string)>, id: Id)
    requires forall key :: key in rows ==> key.0 == id
    ensures |set key | key in rows :: key.1| == |rows|
  {
    var names := set key | key in rows :: key.1;
    if rows != {} {
      var key :| key in rows;
      var rest := rows - {key};
      ProjectionSize(rest, id);
      var fewer := set k | k in rest :: k.1;
      assert key.1 !in fewer;
      assert names == fewer + {key.1};
    } else {
      assert names == {};
    }
  }

  /** With distinct target names, what a gap row reports as stored is a proper subset of the
  targets, so a repair always has a destination. */
  lemma GapStoredIsProper(l: Ledger, id: Id, targets: seq<string>)
    requires NoRepeats(targets) && id in GapIds(l, targets)
    ensures StoredOn(l, id, targets) < Elements(targets)
    ensures forall t :: t in StoredOn(l, id, targets) <==> t in targets && IsStored(l, id, t)
  {
    ElementsCount(targets);
    ProjectionSize(Matching(l, id, targets), id);
    StoredOnMeaning(l, id, targets);
    assert StoredOn(l, id, targets) <= Elements(targets);
    if StoredOn(l, id, targets) == Elements(targets) { assert false; }
  }

  lemma StoredOnMeaning(l: Ledger, id: Id, targets: seq<string>)
    ensures forall t :: t in StoredOn(l, id, targets) <==> t in targets && IsStored(l, id, t)
  {
    forall t | t in targets && IsStored(l, id, t) ensures t in StoredOn(l, id, targets) {
      assert (id, t) in Matching(l, id, targets);
    }
  }

  /** An object on every target leaves the work-list if and only if the names are distinct:
  a repeated name would keep every object under-replicated for good. */
  lemma FullyStoredLeavesGaps(l: Ledger, id: Id, targets: seq<string>)
    requires id in l.objects && forall t :: t in targets ==> IsStored(l, id, t)
    ensures id !in GapIds(l, targets) <==> NoRepeats(targets)
  {
    ElementsCount(targets);
    ProjectionSize(Matching(l, id, targets), id);
    StoredOnMeaning(l, id, targets);
    assert StoredOn(l, id, targets) == Elements(targets);
  }

  /** With distinct names an object is a gap exactly when some target lacks it. */
  lemma GapMeaning(l: Ledger, id: Id, targets: seq<string>)
    requires NoRepeats(targets)
    ensures id in GapIds(l, targets) <==> id in l.objects && exists t :: t in targets && !IsStored(l, id, t)
  {
    hide NoRepeats, Elements;
    if id in GapIds(l, targets) {
      GapStoredIsProper(l, id, targets);
      SomeLeft(targets, StoredOn(l, id, targets));
    } else if id in l.objects && exists t :: t in targets && !IsStored(l, id, t) {
      var t :| t in targets && !IsStored(l, id, t);
      ElementsCount(targets);
      ProjectionSize(Matching(l, id, targets), id);
      StoredOnMeaning(l, id, targets);
      Fewer(targets, StoredOn(l, id, targets), t);
    }
  }

  lemma SomeLeft(targets: seq<string>, some: set<string>)
    requires some < Elements(targets)
    ensures exists t :: t in targets && t !in some
  {
    var left := Elements(targets) - some;
    assert forall x :: x in Elements(targets) ==> x in left || x in some;
    var t :| t in left;
    assert t in targets;
  }

  lemma Fewer(targets: seq<string>, some: set<string>, t: string)
    requires t in targets && t !in some && forall x :: x in some ==> x in targets
    ensures |some| < |Elements(targets)|
  {
    assert some + {t} <= Elements(targets);
    assert Elements(targets) == (some + {t}) + (Elements(targets) - (some + {t}));
  }

  /** One row of the work-list. */
  datatype Gap = Gap(externalID: Id, stored: set<string>)

  /** `TargetGaps` over a ledger that does not change: the sweep yields exactly as many
  objects as the gauge counts, each once, in key order, with the targets that hold it. A page
  that cannot be read or a visitor that refuses leaves a prefix. */
  method TargetGaps(l: Ledger, targets: seq<string>, faulty: nat -> bool, refuses: Id -> bool) returns (gaps: seq<Gap>, ok: bool)
    requires StatusesHaveObjects(l) && "" !in l.objects
    ensures forall k :: 0 <= k < |gaps| ==> gaps[k].stored == StoredOn(l, gaps[k].externalID, targets)
    ensures forall i, j :: 0 <= i < j < |gaps| ==> Less(gaps[i].externalID, gaps[j].externalID)
    ensures forall k :: 0 <= k < |gaps| ==> gaps[k].externalID in GapIds(l, targets)
    ensures ok ==> |gaps| == CoverageGaps(l, targets) && forall id :: id in GapIds(l, targets) ==> Gap(id, StoredOn(l, id, targets)) in gaps
  {
    hide Less, GapIds, StoredOn, Matching, CoverageGaps, SortSet;
    var ids := GapIds(l, targets);
    var visited, done, fetches := KeysetLoop("", KEYSET_PAGE_SIZE, (_: nat) => ids, faulty, refuses, ids, ids);
    gaps := seq(|visited|, k requires 0 <= k < |visited| => Gap(visited[k], StoredOn(l, visited[k], targets)));
    forall k | 0 <= k < |gaps| ensures gaps[k].externalID in ids {
      assert Appeared((_: nat) => ids, fetches, visited[k]);
    }
    ok := done;
    if ok {
      AllAboveEmpty(l, targets);
      GaugeCountsGaps(l, targets);
      forall id | id in ids ensures Gap(id, StoredOn(l, id, targets)) in gaps {
        assert id in Elements(visited);
        var k :| 0 <= k < |visited| && visited[k] == id;
        assert gaps[k] == Gap(id, StoredOn(l, id, targets));
      }
    }
  }

  lemma AllAboveEmpty(l: Ledger, targets: seq<string>)
    requires "" !in l.objects
    ensures Above(GapIds(l, targets), "") == GapIds(l, targets)
  {
  }
}
