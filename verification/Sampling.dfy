/** The sampled sweep: a budget, a start in the middle of the key space, a single wrap. */
module Sampling {
  import opened Content
  import opened Order
  import opened Keyset

  function Take(s: seq<Id>, n: nat): seq<Id> {
    s[..Min(n, |s|)]
  }

  /** Reference: the ids after the start in ascending order, then those before it. An id
  equal to the start belongs to neither part. */
  function SampleOrder(ids: set<Id>, start: Id): seq<Id> {
    SortSet(Above(ids, start)) + SortSet(Below(Above(ids, ""), start))
  }

  function Sampled(ids: set<Id>, sample: int, start: Id): seq<Id> {
    if sample <= 0 then SortSet(Above(ids, start)) else Take(SampleOrder(ids, start), sample)
  }

  /** The reference covers every id but the start, each exactly once. */
  lemma SampleOrderIsExact(ids: set<Id>, start: Id)
    requires "" !in ids
    ensures Elements(SampleOrder(ids, start)) == ids - {start}
    ensures |SampleOrder(ids, start)| == |ids - {start}|
    ensures NoRepeats(SampleOrder(ids, start))
  {
    hide Less, SortSet, Above, Below;
    var hi, lo := Above(ids, start), Below(Above(ids, ""), start);
    TwoSides(ids, start);
    assert |hi + lo| == |hi| + |lo|;
    AscendingNoRepeats(SortSet(hi));
    AscendingNoRepeats(SortSet(lo));
    Joined(SortSet(hi), SortSet(lo));
  }

  lemma TwoSides(ids: set<Id>, start: Id)
    requires "" !in ids
    ensures Above(ids, start) + Below(Above(ids, ""), start) == ids - {start}
    ensures Above(ids, start) !! Below(Above(ids, ""), start)
  {
    StrictTotalOrder();
    hide Less;
  }

  /** The cursor position `c` rows into the scan that started after `base`. */
  predicate AtRow(ids: set<Id>, base: Id, c: nat, after: Id) {
    var rows := SortSet(Above(ids, base));
    c <= |rows| && after == (if c == 0 then base else rows[c - 1])
  }

  /** A page read at row `c` is the next stretch of the scan. */
  lemma PageAtRow(ids: set<Id>, base: Id, c: nat, after: Id, limit: nat)
    requires AtRow(ids, base, c, after)
    ensures var rows := SortSet(Above(ids, base));
            Page(ids, after, limit) == rows[c..Min(c + limit, |rows|)]
  {
    hide Less, SortSet, Above;
    if c > 0 { ScanSuffix(ids, base, c); }
  }

  /** The ids below a bound are a prefix of the scan, and nothing after it is below. */
  lemma BelowIsPrefix(ids: set<Id>, bound: Id)
    ensures var rows, low := SortSet(ids), SortSet(Below(ids, bound));
            && |low| <= |rows| && rows[..|low|] == low
            && (forall k :: 0 <= k < |low| ==> Less(rows[k], bound))
            && (forall k :: |low| <= k < |rows| ==> !Less(rows[k], bound))
  {
    hide Less, SortSet;
    var rows := SortSet(ids);
    var n := CountBelow(rows, bound);
    SplitBelow(rows, bound);
    var low := rows[..n];
    forall x ensures x in Elements(low) <==> x in Below(ids, bound) {
      PrefixMember(rows, bound, x);
    }
    AscendingUnique(low, SortSet(Below(ids, bound)));
  }

  lemma PrefixMember(rows: seq<Id>, bound: Id, x: Id)
    requires Ascending(rows)
    ensures x in Elements(rows[..CountBelow(rows, bound)]) <==> x in Elements(rows) && Less(x, bound)
  {
    hide Less;
    SplitBelow(rows, bound);
    var low := rows[..CountBelow(rows, bound)];
    if x in Elements(low) {
      var k :| 0 <= k < |low| && low[k] == x;
      assert rows[k] == x;
    }
    if x in Elements(rows) && Less(x, bound) {
      var k :| 0 <= k < |rows| && rows[k] == x;
      assert low[k] == x;
    }
  }

  lemma NothingBelowEmpty(ids: set<Id>)
    ensures SortSet(Below(ids, "")) == []
  {
    assert Below(ids, "") == {};
  }

  function CountBelow(rows: seq<Id>, bound: Id): (n: nat)
    ensures n <= |rows|
  {
    if rows == [] || !Less(rows[0], bound) then 0 else 1 + CountBelow(rows[1..], bound)
  }

  lemma {:induction false} SplitBelow(rows: seq<Id>, bound: Id)
    requires Ascending(rows)
    ensures forall k :: 0 <= k < |rows| ==> (Less(rows[k], bound) <==> k < CountBelow(rows, bound))
  {
    hide Less;
    if rows != [] {
      SplitBelow(rows[1..], bound);
      forall k | 0 <= k < |rows| ensures Less(rows[k], bound) <==> k < CountBelow(rows, bound) {
        if k > 0 {
          assert rows[1..][k - 1] == rows[k];
          if Less(rows[k], bound) { LessTransitive(rows[0], rows[k], bound); }
        }
      }
    }
  }

  /** Truncates a page at the first id at or past the boundary. */
  method TrimAtBoundary(page: seq<Id>, boundary: Id) returns (kept: seq<Id>, trimmed: bool)
    ensures CutAt(page, boundary, kept)
    ensures trimmed <==> |kept| < |page|
  {
    hide Less;
    for k := 0 to |page|
      invariant forall j :: 0 <= j < k ==> Less(page[j], boundary)
    {
      if !Less(page[k], boundary) {
        return page[..k], true;
      }
    }
    return page, false;
  }

  /** The rows of the two segments of a sweep. */
  function Segment(ids: set<Id>, start: Id, wrapped: bool): seq<Id> {
    SortSet(Above(ids, if wrapped then "" else start))
  }

  /** How many rows of a segment belong to the sweep. */
  function SegmentEnd(ids: set<Id>, start: Id, wrapped: bool): nat {
    if wrapped then |SortSet(Below(Above(ids, ""), start))| else |SortSet(Above(ids, start))|
  }

  /** What has been emitted when `c` rows of the current segment are through. */
  function EmittedAt(ids: set<Id>, start: Id, wrapped: bool, c: nat): seq<Id>
    requires c <= |Segment(ids, start, wrapped)|
  {
    (if wrapped then SortSet(Above(ids, start)) else []) + Segment(ids, start, wrapped)[..c]
  }

  lemma EmitRows(ids: set<Id>, start: Id, wrapped: bool, c: nat, d: nat)
    requires c <= d <= |Segment(ids, start, wrapped)|
    ensures EmittedAt(ids, start, wrapped, c) + Segment(ids, start, wrapped)[c..d] == EmittedAt(ids, start, wrapped, d)
  {
    hide SortSet, Above, Below;
  }

  lemma EmittedIsPrefix(ids: set<Id>, start: Id, wrapped: bool, c: nat)
    requires c <= SegmentEnd(ids, start, wrapped)
    ensures c <= |Segment(ids, start, wrapped)| && EmittedAt(ids, start, wrapped, c) <= SampleOrder(ids, start)
  {
    hide SortSet, Above, Below;
    BelowIsPrefix(Above(ids, ""), start);
    if wrapped { assert Segment(ids, start, wrapped)[..c] == SortSet(Below(Above(ids, ""), start))[..c]; }
  }

  /** A sweep that ran through its last segment emitted the whole reference. */
  lemma SweepComplete(ids: set<Id>, start: Id, wrapped: bool, sample: int)
    requires sample <= 0 ==> !wrapped
    requires sample > 0 ==> wrapped || start == ""
    requires SegmentEnd(ids, start, wrapped) <= |Segment(ids, start, wrapped)|
    requires sample > 0 ==> |EmittedAt(ids, start, wrapped, SegmentEnd(ids, start, wrapped))| <= sample
    ensures EmittedAt(ids, start, wrapped, SegmentEnd(ids, start, wrapped)) == Sampled(ids, sample, start)
  {
    hide SortSet, Above, Below;
    BelowIsPrefix(Above(ids, ""), start);
    NothingBelowEmpty(Above(ids, ""));
  }

  /** One page of the current segment, cut at the boundary when wrapped: it is the next
  stretch of the segment, and a short or cut page is the segment's last. */
  lemma SegmentPage(ids: set<Id>, start: Id, wrapped: bool, c: nat, after: Id, limit: nat, kept: seq<Id>)
    requires limit > 0 && c <= SegmentEnd(ids, start, wrapped)
    requires AtRow(ids, if wrapped then "" else start, c, after)
    requires var page := Page(ids, after, limit);
             if wrapped then CutAt(page, start, kept) else kept == page
    ensures var d := c + |kept|;
            && d <= SegmentEnd(ids, start, wrapped) <= |Segment(ids, start, wrapped)|
            && kept == Segment(ids, start, wrapped)[c..d]
            && AtRow(ids, if wrapped then "" else start, d, if kept == [] then after else kept[|kept| - 1])
            && (|kept| < limit ==> d == SegmentEnd(ids, start, wrapped))
  {
    hide Less, SortSet, Above, Below, Page;
    var rows := Segment(ids, start, wrapped);
    PageAtRow(ids, if wrapped then "" else start, c, after, limit);
    assert Page(ids, after, limit) == rows[c..Min(c + limit, |rows|)];
    BelowIsPrefix(Above(ids, ""), start);
    if wrapped {
      CutRows(rows, c, Min(c + limit, |rows|), SegmentEnd(ids, start, wrapped), start, kept);
    }
  }

  /** `kept` is `page` up to the first id at or past the boundary. */
  predicate CutAt(page: seq<Id>, boundary: Id, kept: seq<Id>) {
    && kept <= page && (forall k :: 0 <= k < |kept| ==> Less(page[k], boundary))
    && (|kept| < |page| ==> !Less(page[|kept|], boundary))
  }

  lemma CutRows(rows: seq<Id>, c: nat, e: nat, end: nat, boundary: Id, kept: seq<Id>)
    requires c <= e <= |rows| && c <= end <= |rows| && CutAt(rows[c..e], boundary, kept)
    requires forall k :: 0 <= k < |rows| ==> (Less(rows[k], boundary) <==> k < end)
    ensures c + |kept| == Min(e, end) && kept == rows[c..c + |kept|]
  {
    hide Less;
    var page := rows[c..e];
    assert forall k :: 0 <= k < |page| ==> page[k] == rows[c + k];
    if |kept| > 0 {
      assert Less(page[|kept| - 1], boundary);
    }
  }

  /** The sampled sweep over a static table, for any page size. It emits exactly the
  reference sample, in order and without repetition, and it terminates. A page that cannot
  be read, a cancelled context, or an emit that refuses its page leaves a prefix of it;
  `refused` is the page that was refused, if one was. */
  method KeysetSample(sample: int, startAfter: Id, pageSize: nat, ids: set<Id>, faulty: nat -> bool, refuses: seq<Id> -> bool)
    returns (emitted: seq<Id>, ok: bool, pages: nat, refused: seq<Id>)
    requires pageSize > 0
    ensures ok ==> emitted == Sampled(ids, sample, startAfter)
    ensures !ok ==> emitted + refused <= SampleOrder(ids, startAfter)
    ensures !ok ==> if refused == [] then faulty(pages) else refuses(refused)
  {
    hide Less, SortSet, Above, Below, Ascending, Page, SampleOrder, Sampled, EmittedAt, Segment, SegmentEnd, AtRow;
    var after := startAfter;
    var wrapped := false;
    var consumed := 0;
    emitted, pages, refused := [], 0, [];
    ghost var c: nat := 0;
    SweepStart(ids, startAfter);
    while true
      invariant wrapped ==> sample > 0 && startAfter != ""
      invariant c <= SegmentEnd(ids, startAfter, wrapped) <= |Segment(ids, startAfter, wrapped)|
      invariant AtRow(ids, if wrapped then "" else startAfter, c, after)
      invariant emitted == EmittedAt(ids, startAfter, wrapped, c)
      invariant consumed == |emitted| && (sample > 0 ==> consumed <= sample)
      decreases !wrapped, SegmentEnd(ids, startAfter, wrapped) - c
    {
      EmittedIsPrefix(ids, startAfter, wrapped, c);
      if faulty(pages) {
        return emitted, false, pages, [];
      }
      var limit := pageSize;
      if sample > 0 {
        var remaining := sample - consumed;
        if remaining <= 0 {
          FullBudget(ids, sample, startAfter, emitted);
          return emitted, true, pages, [];
        }
        limit := Min(limit, remaining);
      }
      var page := Page(ids, after, limit);
      PageFacts(ids, after, limit);
      pages := pages + 1;
      var segmentEnd := |page| < limit;
      if wrapped {
        var atBoundary;
        page, atBoundary := TrimAtBoundary(page, startAfter);
        if atBoundary {
          segmentEnd := true;
        }
      }
      SegmentPage(ids, startAfter, wrapped, c, after, limit, page);
      ghost var d := c + |page|;
      EmitRows(ids, startAfter, wrapped, c, d);
      if |page| > 0 {
        if refuses(page) {
          EmittedIsPrefix(ids, startAfter, wrapped, d);
          return emitted, false, pages, page;
        }
        emitted := emitted + page;
        consumed := consumed + |page|;
        after := page[|page| - 1];
      }
      c := d;
      if segmentEnd {
        if sample > 0 && !wrapped && startAfter != "" {
          FirstSegmentDone(ids, startAfter);
          wrapped := true;
          after := "";
          c := 0;
        } else {
          SweepComplete(ids, startAfter, wrapped, sample);
          return emitted, true, pages, [];
        }
      }
    }
  }

  lemma SweepStart(ids: set<Id>, start: Id)
    ensures EmittedAt(ids, start, false, 0) == [] && AtRow(ids, start, 0, start)
    ensures SegmentEnd(ids, start, false) <= |Segment(ids, start, false)|
  {
    hide Less, SortSet, Above;
  }

  lemma FirstSegmentDone(ids: set<Id>, start: Id)
    ensures EmittedAt(ids, start, false, SegmentEnd(ids, start, false)) == EmittedAt(ids, start, true, 0)
    ensures SegmentEnd(ids, start, true) <= |Segment(ids, start, true)| && AtRow(ids, "", 0, "")
  {
    hide SortSet, Above, Below;
    BelowIsPrefix(Above(ids, ""), start);
  }

  lemma FullBudget(ids: set<Id>, sample: int, start: Id, emitted: seq<Id>)
    requires sample > 0 && emitted <= SampleOrder(ids, start) && |emitted| == sample
    ensures emitted == Sampled(ids, sample, start)
  {
    hide SampleOrder;
  }
}
