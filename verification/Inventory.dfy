/** The inventory diff: a streaming merge of a target's manifest with the ledger's stored
set, and an order-independent fallback for manifests that are not byte-ascending. */
module Inventory {
  import opened Content
  import opened Order

  datatype ScanErr =
    | NotExist
    | Corrupt
    | NonAscending
    | TooLarge
    | Cancelled
    | ReadDeadline
    | TransientRead
    | LedgerRead
    | LedgerCancelled
    | Panicked

  /** One line of the JSONL file: blank, without an id, with one, or malformed. */
  datatype Line = Blank | NoId | Entry(id: Id) | Malformed

  /** How the underlying reader ends. */
  datatype Tail = CleanEnd | CancelledEnd | DeadlineEnd | LineTooLong | ReadReset

  datatype Manifest = Manifest(lines: seq<Line>, tail: Tail)

  /** What successive pulls of an iterator deliver: the items, then an error or the end. */
  datatype Stream = Stream(items: seq<Id>, fault: Option<ScanErr>)

  datatype Pulled = Item(id: Id) | End | Failed(err: ScanErr)

  function TailFault(tail: Tail): Option<ScanErr> {
    match tail
    case CleanEnd => None
    case CancelledEnd => Some(Cancelled)
    case DeadlineEnd => Some(ReadDeadline)
    case LineTooLong => Some(Corrupt)
    case ReadReset => Some(TransientRead)
  }

  /** The stream of a scanner that yielded `prev` last ("" for none yet). */
  function Scan(lines: seq<Line>, tail: Tail, strict: bool, prev: Id): Stream {
    if lines == [] then Stream([], TailFault(tail))
    else if lines[0].Malformed? then Stream([], Some(Corrupt))
    else if !lines[0].Entry? || lines[0].id == "" then Scan(lines[1..], tail, strict, prev)
    else if strict && prev != "" && !Less(prev, lines[0].id) then Stream([], Some(NonAscending))
    else
      var rest := Scan(lines[1..], tail, strict, lines[0].id);
      Stream([lines[0].id] + rest.items, rest.fault)
  }

  class ManifestScanner {
    const file: Manifest
    const strict: bool
    var pos: nat
    var prev: Id

    ghost predicate Valid() reads this { pos <= |file.lines| }

    ghost function Rest(): Stream
      reads this
      requires Valid()
    {
      Scan(file.lines[pos..], file.tail, strict, prev)
    }

    constructor (file: Manifest, strict: bool)
      ensures Valid() && this.file == file && this.strict == strict
      ensures Rest() == Scan(file.lines, file.tail, strict, "")
    {
      this.file, this.strict := file, strict;
      pos, prev := 0, "";
      new;
      assert file.lines[0..] == file.lines;
    }

    method Next() returns (r: Pulled)
      requires Valid()
      modifies this
      ensures Valid()
      ensures var todo := old(Rest());
              if todo.items != [] then r == Item(todo.items[0]) && Rest() == Stream(todo.items[1..], todo.fault)
              else if todo.fault.Some? then r == Failed(todo.fault.value)
              else r == End
    {
      while pos < |file.lines|
        invariant Valid() && Rest() == old(Rest())
      {
        var line := file.lines[pos];
        assert file.lines[pos..][1..] == file.lines[pos + 1..];
        pos := pos + 1;
        if line.Malformed? {
          return Failed(Corrupt);
        }
        if line.Entry? && line.id != "" {
          if strict && prev != "" && !Less(prev, line.id) {
            return Failed(NonAscending);
          }
          prev := line.id;
          return Item(line.id);
        }
      }
      var fault := TailFault(file.tail);
      return if fault.Some? then Failed(fault.value) else End;
    }
  }

  // ---- the merge -----------------------------------------------------------------

  function PullAt(s: Stream, k: nat): Pulled {
    if k < |s.items| then Item(s.items[k]) else if s.fault.Some? then Failed(s.fault.value) else End
  }

  /** Every classified manifest id lies before every ledger id still to come. */
  ghost predicate ManifestBehind(ms: seq<Id>, rows: seq<Id>, i: nat, j: nat)
    requires i <= |ms| && j <= |rows|
  {
    forall k, q :: 0 <= k < i && j <= q < |rows| ==> Less(ms[k], rows[q])
  }

  /** Every consumed ledger id was matched, or lies before every manifest id to come. */
  ghost predicate LedgerBehind(ms: seq<Id>, rows: seq<Id>, i: nat, j: nat)
    requires i <= |ms| && j <= |rows|
  {
    forall q :: 0 <= q < j ==> rows[q] in Elements(ms[..i]) || forall k :: i <= k < |ms| ==> Less(rows[q], ms[k])
  }

  lemma ElementsSnoc(s: seq<Id>, k: nat)
    requires k < |s|
    ensures Elements(s[..k + 1]) == Elements(s[..k]) + {s[k]}
  {
    assert s[..k + 1] == s[..k] + [s[k]];
  }

  ghost function Matched(ms: seq<Id>, rows: seq<Id>, i: nat, j: nat): set<Id>
    requires i <= |ms| && j <= |rows|
  {
    Elements(ms[..i]) * Elements(rows[..j])
  }

  ghost predicate MergeInv(ms: seq<Id>, rows: seq<Id>, i: nat, j: nat) {
    && i <= |ms| && j <= |rows| && NonDescending(ms) && Ascending(rows)
    && ManifestBehind(ms, rows, i, j) && LedgerBehind(ms, rows, i, j)
  }

  lemma ExtraStep(ms: seq<Id>, rows: seq<Id>, i: nat, j: nat)
    requires MergeInv(ms, rows, i, j) && i < |ms| && (j < |rows| ==> Less(ms[i], rows[j]))
    ensures MergeInv(ms, rows, i + 1, j) && Matched(ms, rows, i + 1, j) == Matched(ms, rows, i, j)
  {
    hide Less;
    ElementsSnoc(ms, i);
    forall q | j <= q < |rows| ensures Less(ms[i], rows[q]) {
      if q > j { LessTransitive(ms[i], rows[j], rows[q]); }
    }
    if ms[i] in Elements(rows[..j]) {
      var q :| 0 <= q < j && rows[..j][q] == ms[i];
      assert rows[q] == ms[i];
      LessIrreflexive(ms[i]);
      assert ms[i] in Elements(ms[..i]);
    }
  }

  lemma MissingStep(ms: seq<Id>, rows: seq<Id>, i: nat, j: nat)
    requires MergeInv(ms, rows, i, j) && j < |rows| && (i < |ms| ==> Less(rows[j], ms[i]))
    ensures MergeInv(ms, rows, i, j + 1) && Matched(ms, rows, i, j + 1) == Matched(ms, rows, i, j)
  {
    hide Less;
    ElementsSnoc(rows, j);
    forall k | i <= k < |ms| ensures Less(rows[j], ms[k]) {
      if k > i && ms[i] != ms[k] { LessTransitive(rows[j], ms[i], ms[k]); }
    }
    NotYetSeen(ms, rows, i, j);
  }

  lemma NotYetSeen(ms: seq<Id>, rows: seq<Id>, i: nat, j: nat)
    requires i <= |ms| && j < |rows| && ManifestBehind(ms, rows, i, j)
    ensures rows[j] !in Elements(ms[..i])
  {
    if rows[j] in Elements(ms[..i]) {
      var k :| 0 <= k < i && ms[..i][k] == rows[j];
      assert ms[k] == rows[j];
      LessIrreflexive(rows[j]);
    }
  }

  lemma BothStep(ms: seq<Id>, rows: seq<Id>, i: nat, j: nat)
    requires MergeInv(ms, rows, i, j) && i < |ms| && j < |rows| && ms[i] == rows[j]
    ensures MergeInv(ms, rows, i + 1, j + 1)
    ensures Matched(ms, rows, i + 1, j + 1) == Matched(ms, rows, i, j) + {rows[j]}
    ensures rows[j] !in Matched(ms, rows, i, j)
  {
    hide Less;
    NotYetSeen(ms, rows, i, j);
    ElementsSnoc(ms, i);
    ElementsSnoc(rows, j);
    assert forall q :: j < q < |rows| ==> Less(ms[i], rows[q]);
  }

  /** Matching against the part of the ledger seen is matching against all of it. */
  lemma MatchedIsFinal(ms: seq<Id>, rows: seq<Id>, i: nat, j: nat)
    requires MergeInv(ms, rows, i, j)
    ensures Matched(ms, rows, i, j) == Elements(ms[..i]) * Elements(rows)
  {
    hide Less;
    forall x | x in Elements(ms[..i]) && x in Elements(rows) ensures x in Elements(rows[..j]) {
      var q :| 0 <= q < |rows| && rows[q] == x;
      if q >= j {
        var k :| 0 <= k < i && ms[..i][k] == x;
        assert ms[k] == x && Less(ms[k], rows[q]);
        LessIrreflexive(x);
      } else {
        assert rows[..j][q] == x;
      }
    }
    assert forall x :: x in Elements(rows[..j]) ==> x in Elements(rows);
  }

  /** The lock-step merge. `rows` is the ledger's whole stored set in order, of which the
  ledger stream delivers everything, or a part and then an error. Whatever it returns, with
  or without an error, `extra` is the number of manifest entries read that are neither in
  the ledger nor the first occurrence of a ledger id, and `size` how many were read. */
  method MergeInventory(m: Stream, l: Stream, ghost rows: seq<Id>) returns (extra: nat, missing: nat, size: nat, err: Option<ScanErr>)
    requires NonDescending(m.items) && Ascending(rows)
    requires l.items <= rows && (l.fault.None? ==> l.items == rows)
    ensures size <= |m.items|
    ensures extra + |Elements(m.items[..size]) * Elements(rows)| == size
    ensures err.None? <==> m.fault.None? && l.fault.None?
    ensures err.None? ==> size == |m.items| && missing + |Elements(m.items) * Elements(rows)| == |rows|
    ensures err.Some? ==> (err == m.fault && size == |m.items|) || err == l.fault
  {
    hide Less, MergeInv, Matched, Elements, Ascending, NonDescending;
    extra, missing, size := 0, 0, 0;
    var i, j := 0, 0;
    MergeStart(m.items, rows);
    var mp := PullAt(m, 0);
    if mp.Failed? {
      MatchedIsFinal(m.items, rows, 0, 0);
      return extra, missing, size, Some(mp.err);
    }
    var lp := PullAt(l, 0);
    if lp.Failed? {
      MatchedIsFinal(m.items, rows, 0, 0);
      return extra, missing, size, Some(lp.err);
    }
    while mp.Item? || lp.Item?
      invariant i <= |m.items| && j <= |l.items| && size == i
      invariant mp == PullAt(m, i) && lp == PullAt(l, j) && !mp.Failed? && !lp.Failed?
      invariant MergeInv(m.items, rows, i, j)
      invariant extra + |Matched(m.items, rows, i, j)| == i
      invariant missing + |Matched(m.items, rows, i, j)| == j
      decreases |m.items| - i + |l.items| - j
    {
      if mp.Item? && (!lp.Item? || Less(mp.id, lp.id)) {
        ExtraStep(m.items, rows, i, j);
        extra := extra + 1;
        size := size + 1;
        i := i + 1;
        mp := PullAt(m, i);
        if mp.Failed? {
          MatchedIsFinal(m.items, rows, i, j);
          return extra, missing, size, Some(mp.err);
        }
      } else if lp.Item? && (!mp.Item? || Less(lp.id, mp.id)) {
        MissingStep(m.items, rows, i, j);
        missing := missing + 1;
        j := j + 1;
        lp := PullAt(l, j);
        if lp.Failed? {
          MatchedIsFinal(m.items, rows, i, j);
          return extra, missing, size, Some(lp.err);
        }
      } else {
        LessTotal(mp.id, lp.id);
        BothStep(m.items, rows, i, j);
        size := size + 1;
        i, j := i + 1, j + 1;
        mp := PullAt(m, i);
        if mp.Failed? {
          MatchedIsFinal(m.items, rows, i, j);
          return extra, missing, size, Some(mp.err);
        }
        lp := PullAt(l, j);
        if lp.Failed? {
          MatchedIsFinal(m.items, rows, i, j);
          return extra, missing, size, Some(lp.err);
        }
      }
    }
    MatchedIsFinal(m.items, rows, i, j);
    assert m.items[..i] == m.items;
    return extra, missing, size, None;
  }

  lemma MergeStart(ms: seq<Id>, rows: seq<Id>)
    requires NonDescending(ms) && Ascending(rows)
    ensures MergeInv(ms, rows, 0, 0) && Matched(ms, rows, 0, 0) == {}
  {
  }

  /** Between two ascending lists the two counts of a clean merge are the two differences. */
  lemma AscendingCountsAreDifferences(ms: seq<Id>, rows: seq<Id>)
    requires Ascending(ms) && Ascending(rows)
    ensures |ms| - |Elements(ms) * Elements(rows)| == |Elements(ms) - Elements(rows)|
    ensures |rows| - |Elements(ms) * Elements(rows)| == |Elements(rows) - Elements(ms)|
  {
    AscendingNoRepeats(ms);
    AscendingNoRepeats(rows);
    ElementsCount(ms);
    ElementsCount(rows);
    DifferenceSize(Elements(ms), Elements(rows));
  }

  lemma DifferenceSize(a: set<Id>, b: set<Id>)
    ensures |a - b| == |a| - |a * b| && |b - a| == |b| - |a * b|
  {
    assert a == (a - b) + a * b && b == (b - a) + a * b;
  }

  // ---- manifests without faults --------------------------------------------------

  predicate WellFormed(f: Manifest) {
    f.tail.CleanEnd? && forall k :: 0 <= k < |f.lines| ==> !f.lines[k].Malformed?
  }

  /** The ids a manifest lists, in file order. */
  function Listed(lines: seq<Line>): seq<Id> {
    if lines == [] then []
    else if lines[0].Entry? && lines[0].id != "" then [lines[0].id] + Listed(lines[1..])
    else Listed(lines[1..])
  }

  /** The longest strictly ascending prefix of what follows `prev`. */
  function GoodPrefix(ids: seq<Id>, prev: Id): seq<Id> {
    if ids == [] || (prev != "" && !Less(prev, ids[0])) then [] else [ids[0]] + GoodPrefix(ids[1..], ids[0])
  }

  lemma {:induction false} ListedNonEmpty(lines: seq<Line>)
    ensures forall k :: 0 <= k < |Listed(lines)| ==> Listed(lines)[k] != ""
  {
    if lines != [] { ListedNonEmpty(lines[1..]); }
  }

  lemma {:induction false} ScanLoose(lines: seq<Line>, prev: Id)
    requires forall k :: 0 <= k < |lines| ==> !lines[k].Malformed?
    ensures Scan(lines, CleanEnd, false, prev) == Stream(Listed(lines), None)
  {
    if lines != [] {
      ScanLoose(lines[1..], if lines[0].Entry? && lines[0].id != "" then lines[0].id else prev);
    }
  }

  lemma {:induction false} ScanStrict(lines: seq<Line>, prev: Id)
    requires forall k :: 0 <= k < |lines| ==> !lines[k].Malformed?
    ensures var good := GoodPrefix(Listed(lines), prev);
            Scan(lines, CleanEnd, true, prev) == Stream(good, if good == Listed(lines) then None else Some(NonAscending))
  {
    hide Less;
    if lines != [] {
      ScanStrict(lines[1..], if lines[0].Entry? && lines[0].id != "" then lines[0].id else prev);
      if lines[0].Entry? && lines[0].id != "" {
        assert Listed(lines)[1..] == Listed(lines[1..]);
      }
    }
  }

  /** The strict scanner only ever yields an ascending stream, on any file. */
  lemma {:induction false} StrictIsAscending(lines: seq<Line>, tail: Tail, prev: Id)
    ensures var items := Scan(lines, tail, true, prev).items;
            Ascending(items) && (prev != "" ==> forall k :: 0 <= k < |items| ==> Less(prev, items[k]))
  {
    hide Less;
    if lines != [] && lines[0].Entry? && lines[0].id != "" {
      var id := lines[0].id;
      StrictIsAscending(lines[1..], tail, id);
      var rest := Scan(lines[1..], tail, true, id).items;
      if prev != "" && Less(prev, id) {
        forall k | 0 <= k < |rest| ensures Less(prev, rest[k]) { LessTransitive(prev, id, rest[k]); }
      }
    } else if lines != [] {
      StrictIsAscending(lines[1..], tail, prev);
    }
  }

  predicate HasMalformed(lines: seq<Line>) {
    exists k :: 0 <= k < |lines| && lines[k].Malformed?
  }

  /** A manifest with a line that does not parse, or one too long to buffer. */
  predicate Damaged(f: Manifest) {
    HasMalformed(f.lines) || f.tail.LineTooLong?
  }

  /** How a scan in file order ends: corruption means damage and nothing else does. */
  lemma {:induction false} LooseFault(f: Manifest, prev: Id)
    ensures var fault := Scan(f.lines, f.tail, false, prev).fault;
            && (fault == None <==> WellFormed(f))
            && (fault == Some(Corrupt) <==> Damaged(f))
            && (fault == Some(Cancelled) <==> !HasMalformed(f.lines) && f.tail.CancelledEnd?)
            && (fault == Some(ReadDeadline) <==> !HasMalformed(f.lines) && f.tail.DeadlineEnd?)
            && (fault == Some(TransientRead) <==> !HasMalformed(f.lines) && f.tail.ReadReset?)
    decreases |f.lines|
  {
    if f.lines != [] && !f.lines[0].Malformed? {
      var rest := f.(lines := f.lines[1..]);
      LooseFault(rest, if f.lines[0].Entry? && f.lines[0].id != "" then f.lines[0].id else prev);
      assert HasMalformed(f.lines) <==> HasMalformed(rest.lines) by {
        if HasMalformed(f.lines) {
          var k :| 0 <= k < |f.lines| && f.lines[k].Malformed?;
          assert rest.lines[k - 1] == f.lines[k];
        }
      }
      assert WellFormed(f) <==> !HasMalformed(f.lines) && f.tail.CleanEnd?;
      assert WellFormed(rest) <==> !HasMalformed(rest.lines) && f.tail.CleanEnd?;
    }
  }

  /** The strict scanner stops at a key out of order, or does what the other one does. */
  lemma {:induction false} StrictOrLoose(lines: seq<Line>, tail: Tail, prev: Id)
    ensures var s := Scan(lines, tail, true, prev);
            s.fault == Some(NonAscending) || s == Scan(lines, tail, false, prev)
  {
    hide Less;
    if lines != [] {
      StrictOrLoose(lines[1..], tail, if lines[0].Entry? && lines[0].id != "" then lines[0].id else prev);
    }
  }

  /** An ascending list is its own good prefix, and no other list is. */
  lemma {:induction false} GoodPrefixWhole(ids: seq<Id>, prev: Id)
    requires forall k :: 0 <= k < |ids| ==> ids[k] != ""
    ensures GoodPrefix(ids, prev) <= ids
    ensures GoodPrefix(ids, prev) == ids <==> Ascending(ids) && (prev != "" && ids != [] ==> Less(prev, ids[0]))
  {
    hide Less;
    if ids != [] {
      var rest := ids[1..];
      GoodPrefixWhole(rest, ids[0]);
      if GoodPrefix(ids, prev) == ids {
        assert ids == [ids[0]] + rest;
        assert GoodPrefix(rest, ids[0]) == ids[1..];
        PrependAscending(ids);
      } else if Ascending(ids) {
        assert forall k :: 0 <= k < |rest| ==> rest[k] == ids[k + 1];
      }
    }
  }

  lemma PrependAscending(ids: seq<Id>)
    requires ids != [] && Ascending(ids[1..]) && (|ids| > 1 ==> Less(ids[0], ids[1]))
    ensures Ascending(ids)
  {
    hide Less;
    forall i, j | 0 <= i < j < |ids| ensures Less(ids[i], ids[j]) {
      if i == 0 {
        if j > 1 {
          assert ids[1..][0] == ids[1] && ids[1..][j - 1] == ids[j];
          LessTransitive(ids[0], ids[1], ids[j]);
        }
      } else {
        assert ids[1..][i - 1] == ids[i] && ids[1..][j - 1] == ids[j];
      }
    }
  }

  // ---- verdicts --------------------------------------------------------------------

  datatype Verdict = Verified | Drift | NoData | Unverifiable | CorruptManifest | LoudFault

  /** An error never reads as a comparison, and reads as benign only when there is no manifest
  or the whole audit is being shut down. */
  function Classify(parentCancelled: bool, e: ScanErr): (v: Verdict)
    ensures v != Verified && v != Drift
    ensures v == NoData <==> e.NotExist? || (parentCancelled && (e.Cancelled? || e.LedgerCancelled?))
    ensures v == CorruptManifest <==> e.Corrupt?
    ensures v == Unverifiable ==> !e.LedgerRead? && !e.LedgerCancelled? && !e.Panicked?
  {
    if e.NotExist? then NoData
    else if (e.Cancelled? || e.LedgerCancelled?) && parentCancelled then NoData
    else if e.Panicked? then LoudFault
    else if e.Corrupt? then CorruptManifest
    else if e.LedgerRead? || e.LedgerCancelled? then LoudFault
    else Unverifiable
  }

  function MergeToVerdict(parentCancelled: bool, extra: nat, err: Option<ScanErr>): Verdict {
    if extra > 0 then Drift
    else if err.Some? then Classify(parentCancelled, err.value)
    else Verified
  }

  /** What a manifest that cannot be read to a clean end is reported as. */
  function FaultVerdict(f: Manifest, parentCancelled: bool): Verdict {
    if Damaged(f) then CorruptManifest
    else if f.tail.CancelledEnd? && parentCancelled then NoData
    else Unverifiable
  }

  lemma FaultIsReported(f: Manifest, parentCancelled: bool)
    requires !WellFormed(f)
    ensures var fault := Scan(f.lines, f.tail, false, "").fault;
            fault.Some? && Classify(parentCancelled, fault.value) == FaultVerdict(f, parentCancelled)
  {
    LooseFault(f, "");
    assert HasMalformed(f.lines) || !f.tail.CleanEnd?;
  }

  const MAX_SORTED_MANIFEST_IDS := 1000000

  predicate HasOrphan(ids: seq<Id>, stored: set<Id>) {
    exists k :: 0 <= k < |ids| && ids[k] !in stored
  }

  /** When a merge of a manifest list finds something extra. */
  lemma ExtraMeansOrphanOrRepeat(ms: seq<Id>, stored: set<Id>)
    ensures |Elements(ms) * stored| <= |ms|
    ensures |Elements(ms) * stored| < |ms| <==> HasOrphan(ms, stored) || !NoRepeats(ms)
  {
    ElementsCount(ms);
    var both := Elements(ms) * stored;
    SubsetSize(both, Elements(ms));
    if HasOrphan(ms, stored) {
      var k :| 0 <= k < |ms| && ms[k] !in stored;
      assert ms[k] in Elements(ms) && ms[k] !in both;
    } else {
      assert both == Elements(ms);
    }
  }

  method CollectManifestIDs(file: Manifest, maxIDs: nat) returns (ids: seq<Id>, err: Option<ScanErr>)
    ensures var s := Scan(file.lines, file.tail, false, "");
            if |s.items| > maxIDs then err == Some(TooLarge) else err == s.fault && (err.None? ==> ids == s.items)
  {
    hide Less, Scan;
    var next := new ManifestScanner(file, false);
    ids := [];
    ghost var s := next.Rest();
    while true
      invariant next.Valid() && |ids| <= maxIDs
      invariant s == Stream(ids + next.Rest().items, next.Rest().fault)
      decreases |next.Rest().items|
    {
      ghost var todo := next.Rest();
      var r := next.Next();
      match r
      case Failed(e) => return ids, Some(e);
      case End => return ids, None;
      case Item(id) =>
        if |ids| >= maxIDs {
          return ids, Some(TooLarge);
        }
        Shift(ids, todo.items, s.items);
        ids := ids + [id];
    }
  }

  datatype Fetch = FetchFailed(e: ScanErr) | Fetched(file: Manifest)

  /** The order-independent fallback: refetch, buffer, sort, and run the same merge. */
  method InventorySortedDiff(fetch: Fetch, l: Stream, ghost rows: seq<Id>, maxIDs: nat, parentCancelled: bool) returns (v: Verdict)
    requires Ascending(rows) && l.items <= rows && (l.fault.None? ==> l.items == rows)
    ensures v == Drift ==> fetch.Fetched? && OrphanOrRepeatRead(fetch.file, Elements(rows))
    ensures v == Verified ==> fetch.Fetched? && l.fault.None? && MatchesLoosely(fetch.file, Elements(rows), maxIDs)
    ensures fetch.Fetched? && WellFormed(fetch.file) && l.fault.None? ==>
              v == SortedVerdict(Listed(fetch.file.lines), Elements(rows), maxIDs)
    ensures fetch.Fetched? && !WellFormed(fetch.file) ==>
              v == if |Loose(fetch.file)| > maxIDs then Unverifiable else FaultVerdict(fetch.file, parentCancelled)
  {
    hide Less, Sort, Scan, Elements, NoRepeats, HasOrphan, WellFormed;
    if fetch.FetchFailed? {
      return Classify(parentCancelled, fetch.e);
    }
    if WellFormed(fetch.file) { LooseScanOf(fetch.file); } else { FaultIsReported(fetch.file, parentCancelled); }
    var ids, err := CollectManifestIDs(fetch.file, maxIDs);
    if err.Some? {
      return Classify(parentCancelled, err.value);
    }
    var sorted := Sort(ids);
    var extra, missing, size, merr := MergeInventory(Stream(sorted, None), l, rows);
    ExtraMeansOrphanOrRepeat(sorted[..size], Elements(rows));
    assert extra > 0 ==> OrphanOrRepeat(Sort(Loose(fetch.file))[..size], Elements(rows));
    if merr.None? {
      assert sorted[..size] == sorted;
      SortKeepsMembers(ids, Elements(rows));
    }
    return MergeToVerdict(parentCancelled, extra, merr);
  }

  lemma LooseScanOf(f: Manifest)
    requires WellFormed(f)
    ensures Scan(f.lines, f.tail, false, "") == Stream(Listed(f.lines), None)
  {
    ScanLoose(f.lines, "");
  }

  function Strict(f: Manifest): Stream {
    Scan(f.lines, f.tail, true, "")
  }

  function Loose(f: Manifest): seq<Id> {
    Scan(f.lines, f.tail, false, "").items
  }

  predicate OrphanOrRepeat(ms: seq<Id>, stored: set<Id>) {
    HasOrphan(ms, stored) || !NoRepeats(ms)
  }

  /** Some prefix of the sorted manifest holds an orphan or a repeated id. */
  ghost predicate OrphanOrRepeatRead(f: Manifest, stored: set<Id>) {
    exists n: nat :: n <= |Loose(f)| && OrphanOrRepeat(Sort(Loose(f))[..n], stored)
  }

  /** A manifest that was read to its end, in order, and lists stored ids only. */
  predicate MatchesStrictly(f: Manifest, stored: set<Id>) {
    var s := Strict(f);
    s.fault == None && !HasOrphan(s.items, stored)
  }

  /** One that was read to its end in any order, within the bound, and lists stored ids once. */
  predicate MatchesLoosely(f: Manifest, stored: set<Id>, maxIDs: nat) {
    var s := Scan(f.lines, f.tail, false, "");
    s.fault == None && |s.items| <= maxIDs && !OrphanOrRepeat(s.items, stored)
  }

  function SortedVerdict(ids: seq<Id>, stored: set<Id>, maxIDs: nat): Verdict {
    if |ids| > maxIDs then Unverifiable
    else if HasOrphan(ids, stored) || !NoRepeats(ids) then Drift
    else Verified
  }

  lemma SortKeepsMembers(ids: seq<Id>, stored: set<Id>)
    ensures HasOrphan(Sort(ids), stored) <==> HasOrphan(ids, stored)
    ensures NoRepeats(Sort(ids)) <==> NoRepeats(ids)
  {
    var r := Sort(ids);
    SameMembers(ids, r);
    ElementsCount(ids);
    ElementsCount(r);
    OrphanMeaning(ids, stored);
    OrphanMeaning(r, stored);
  }

  lemma SameMembers(a: seq<Id>, b: seq<Id>)
    requires multiset(a) == multiset(b)
    ensures Elements(a) == Elements(b) && |a| == |b|
  {
    forall x ensures x in Elements(a) <==> x in Elements(b) {
      assert x in a <==> x in multiset(a);
      assert x in b <==> x in multiset(b);
    }
    assert |multiset(a)| == |a| && |multiset(b)| == |b|;
  }

  lemma OrphanMeaning(ids: seq<Id>, stored: set<Id>)
    ensures HasOrphan(ids, stored) <==> !(Elements(ids) <= stored)
  {
    if HasOrphan(ids, stored) {
      var k :| 0 <= k < |ids| && ids[k] !in stored;
      assert ids[k] in Elements(ids);
    }
  }

  /** One target's probe. `second`, `l2` and `rows2` are what the fallback meets when it
  fetches the manifest and reads the ledger again. A Drift always has a witness in a manifest
  that was read, against the ledger it was compared with; on a well-formed manifest and a
  readable ledger that did not change in between the verdict is `ProbeVerdict`, and on any
  other manifest a damaged one is told from one whose reading was cut short. */
  method InventoryProbe(first: Fetch, second: Fetch, l1: Stream, l2: Stream, ghost rows1: seq<Id>, ghost rows2: seq<Id>,
                        maxIDs: nat, parentCancelled: bool)
    returns (v: Verdict)
    requires Ascending(rows1) && l1.items <= rows1 && (l1.fault.None? ==> l1.items == rows1)
    requires Ascending(rows2) && l2.items <= rows2 && (l2.fault.None? ==> l2.items == rows2)
    ensures v == Drift ==>
              || (first.Fetched? && HasOrphan(Strict(first.file).items, Elements(rows1)))
              || (second.Fetched? && OrphanOrRepeatRead(second.file, Elements(rows2)))
    ensures v == Verified ==>
              || (first.Fetched? && l1.fault.None? && MatchesStrictly(first.file, Elements(rows1)))
              || (second.Fetched? && l2.fault.None? && MatchesLoosely(second.file, Elements(rows2), maxIDs))
    ensures first.Fetched? && WellFormed(first.file) && second == first && l1.fault.None? && l2.fault.None? && rows1 == rows2 ==>
              v == ProbeVerdict(Listed(first.file.lines), Elements(rows1), maxIDs)
    ensures first.Fetched? && !WellFormed(first.file) && second == first && l1.fault.None? ==>
              v == if HasOrphan(Strict(first.file).items, Elements(rows1)) then Drift
                   else if Strict(first.file).fault == Some(NonAscending) && |Loose(first.file)| > maxIDs then Unverifiable
                   else FaultVerdict(first.file, parentCancelled)
  {
    hide Less, Sort, Elements;
    if first.FetchFailed? {
      return Classify(parentCancelled, first.e);
    }
    var m := Scan(first.file.lines, first.file.tail, true, "");
    StrictIsAscending(first.file.lines, first.file.tail, "");
    AscendingNonDescending(m.items);
    if WellFormed(first.file) {
      ScanStrict(first.file.lines, "");
    } else {
      FaultIsReported(first.file, parentCancelled);
      StrictOrLoose(first.file.lines, first.file.tail, "");
    }
    var extra, missing, size, merr := MergeInventory(m, l1, rows1);
    OrphanInPrefix(m.items, size, Elements(rows1));
    if merr.Some? && extra == 0 && merr.value.NonAscending? {
      v := InventorySortedDiff(second, l2, rows2, maxIDs, parentCancelled);
      return;
    }
    return MergeToVerdict(parentCancelled, extra, merr);
  }

  lemma AscendingNonDescending(s: seq<Id>)
    requires Ascending(s)
    ensures NonDescending(s)
  {
  }

  /** In an ascending prefix, something extra is a real orphan of the whole stream. */
  lemma OrphanInPrefix(ms: seq<Id>, n: nat, stored: set<Id>)
    requires Ascending(ms) && n <= |ms|
    ensures |Elements(ms[..n]) * stored| < n ==> HasOrphan(ms, stored)
    ensures n == |ms| ==> (|Elements(ms[..n]) * stored| < n <==> HasOrphan(ms, stored))
  {
    hide Less;
    AscendingNoRepeats(ms);
    var part := ms[..n];
    ExtraMeansOrphanOrRepeat(part, stored);
    assert NoRepeats(part);
    if HasOrphan(part, stored) {
      var k :| 0 <= k < |part| && part[k] !in stored;
      assert ms[k] !in stored;
    }
    if n == |ms| { assert part == ms; }
  }

  function ProbeVerdict(ids: seq<Id>, stored: set<Id>, maxIDs: nat): Verdict {
    var good := GoodPrefix(ids, "");
    if HasOrphan(good, stored) then Drift
    else if good == ids then Verified
    else SortedVerdict(ids, stored, maxIDs)
  }

  /** The verdict of a well-formed manifest, exactly. A manifest of at most maxIDs ids, or
  an ascending one of any size, is Verified if and only if it lists no orphan and no id
  twice; otherwise it drifts. A larger one that is not ascending drifts exactly when its
  ascending prefix holds an orphan, and is Unverifiable if not. */
  lemma ProbeVerdictExact(ids: seq<Id>, stored: set<Id>, maxIDs: nat)
    requires forall k :: 0 <= k < |ids| ==> ids[k] != ""
    ensures |ids| <= maxIDs || Ascending(ids) ==>
              ProbeVerdict(ids, stored, maxIDs) == if HasOrphan(ids, stored) || !NoRepeats(ids) then Drift else Verified
    ensures |ids| > maxIDs && !Ascending(ids) ==>
              ProbeVerdict(ids, stored, maxIDs) == if HasOrphan(GoodPrefix(ids, ""), stored) then Drift else Unverifiable
  {
    hide Less;
    GoodPrefixWhole(ids, "");
    var good := GoodPrefix(ids, "");
    if HasOrphan(good, stored) {
      var k :| 0 <= k < |good| && good[k] !in stored;
      assert ids[k] !in stored;
    }
    if Ascending(ids) { AscendingNoRepeats(ids); }
  }

  /** The promise "Drift means an orphan" fails on a repeated id: the fallback does not
  remove duplicates, so a manifest whose every id is stored can still drift. */
  lemma RepeatedIdDrifts()
    ensures ProbeVerdict(["b", "a", "a"], {"a", "b"}, MAX_SORTED_MANIFEST_IDS) == Drift
    ensures !HasOrphan(["b", "a", "a"], {"a", "b"})
  {
    var ids := ["b", "a", "a"];
    assert ids[1] == ids[2] && !NoRepeats(ids);
    ProbeVerdictExact(ids, {"a", "b"}, MAX_SORTED_MANIFEST_IDS);
  }
}
