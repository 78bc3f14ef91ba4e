/** The byte order of identifiers, and the sorting and paging the sweeps are built on.

Go compares strings byte by byte and the ledger columns carry COLLATE "C", so one
order serves the database pages, the manifest merge and the manifest names. */
module Order {

  /** Go's `a < b` on strings. */
  predicate Less(a: string, b: string) {
    b != [] && (a == [] || a[0] < b[0] || (a[0] == b[0] && Less(a[1..], b[1..])))
  }

  predicate LessEq(a: string, b: string) {
    a == b || Less(a, b)
  }

  lemma {:induction false} LessIrreflexive(a: string)
    ensures !Less(a, a)
  {
    if a != [] { LessIrreflexive(a[1..]); }
  }

  lemma {:induction false} LessTransitive(a: string, b: string, c: string)
    requires Less(a, b) && Less(b, c)
    ensures Less(a, c)
  {
    if a != [] && a[0] == b[0] && b[0] == c[0] {
      LessTransitive(a[1..], b[1..], c[1..]);
    }
  }

  lemma {:induction false} LessTotal(a: string, b: string)
    ensures a == b || Less(a, b) || Less(b, a)
  {
    if a != [] && b != [] && a[0] == b[0] {
      LessTotal(a[1..], b[1..]);
      assert a == [a[0]] + a[1..] && b == [b[0]] + b[1..];
    }
  }

  /** `Less` is a strict total order with the empty string at the bottom. */
  lemma StrictTotalOrder()
    ensures forall a :: !Less(a, a)
    ensures forall a, b, c :: Less(a, b) && Less(b, c) ==> Less(a, c)
    ensures forall a, b :: a == b || Less(a, b) || Less(b, a)
    ensures forall a :: a != [] ==> Less([], a)
  {
    forall a ensures !Less(a, a) { LessIrreflexive(a); }
    forall a, b, c | Less(a, b) && Less(b, c) ensures Less(a, c) { LessTransitive(a, b, c); }
    forall a, b ensures a == b || Less(a, b) || Less(b, a) { LessTotal(a, b); }
  }

  predicate Ascending(s: seq<string>) {
    forall i, j :: 0 <= i < j < |s| ==> Less(s[i], s[j])
  }

  predicate NonDescending(s: seq<string>) {
    forall i, j :: 0 <= i < j < |s| ==> LessEq(s[i], s[j])
  }

  function Elements(s: seq<string>): set<string> {
    set x | x in s
  }

  predicate NoRepeats(s: seq<string>) {
    forall i, j :: 0 <= i < j < |s| ==> s[i] != s[j]
  }

  lemma AscendingNoRepeats(s: seq<string>)
    requires Ascending(s)
    ensures NoRepeats(s)
  {
    hide Less;
    forall i, j | 0 <= i < j < |s| ensures s[i] != s[j] { LessIrreflexive(s[i]); }
  }

  lemma SnocElements(s: seq<string>)
    requires s != []
    ensures Elements(s) == Elements(s[..|s| - 1]) + {s[|s| - 1]}
  {
    assert s == s[..|s| - 1] + [s[|s| - 1]];
  }

  lemma SnocRepeats(s: seq<string>)
    requires s != []
    ensures NoRepeats(s) <==> NoRepeats(s[..|s| - 1]) && s[|s| - 1] !in Elements(s[..|s| - 1])
  {
    var init, last := s[..|s| - 1], s[|s| - 1];
    assert forall k :: 0 <= k < |init| ==> init[k] == s[k] && init[k] in Elements(init);
  }

  /** A sequence has as many distinct members as entries if and only if none repeats. */
  lemma {:induction false} ElementsCount(s: seq<string>)
    ensures |Elements(s)| <= |s|
    ensures |Elements(s)| == |s| <==> NoRepeats(s)
  {
    if s == [] {
      assert Elements(s) == {};
    } else {
      var n := |s| - 1;
      var init, last := s[..n], s[n];
      ElementsCount(init);
      SnocElements(s);
      SnocRepeats(s);
    }
  }

  lemma Joined(a: seq<string>, b: seq<string>)
    requires NoRepeats(a) && NoRepeats(b) && Elements(a) !! Elements(b)
    ensures NoRepeats(a + b) && Elements(a + b) == Elements(a) + Elements(b)
  {
    var c := a + b;
    forall i, j | 0 <= i < j < |c| ensures c[i] != c[j] {
      if i < |a| <= j {
        assert c[i] in Elements(a) && c[j] in Elements(b);
      }
    }
    forall x | x in Elements(a) + Elements(b) ensures x in Elements(c) {
      if x in Elements(a) {
        var i :| 0 <= i < |a| && a[i] == x;
        assert c[i] == x;
      } else {
        var i :| 0 <= i < |b| && b[i] == x;
        assert c[|a| + i] == x;
      }
    }
  }

  lemma SubsetSize<T>(a: set<T>, b: set<T>)
    requires a <= b
    ensures |a| <= |b| && (a != b ==> |a| < |b|)
  {
    assert b == a + (b - a);
    if a != b { var x :| x in b - a; }
  }

  /** The members of `ids` strictly after `after`: the `"externalID" > $after` predicate. */
  function Above(ids: set<string>, after: string): set<string> {
    set x | x in ids && Less(after, x)
  }

  function Below(ids: set<string>, bound: string): set<string> {
    set x | x in ids && Less(x, bound)
  }

  predicate IsLeast(ids: set<string>, m: string) {
    m in ids && forall x :: x in ids ==> LessEq(m, x)
  }

  lemma LeastWith(ids: set<string>, y: string, m: string)
    requires y in ids && IsLeast(ids - {y}, m)
    ensures IsLeast(ids, if Less(y, m) then y else m)
  {
    hide Less;
    LessTotal(y, m);
    forall x | x in ids ensures LessEq(if Less(y, m) then y else m, x) {
      assert x == y || x in ids - {y};
      if x != y && x != m && Less(y, m) { LessTransitive(y, m, x); }
    }
  }

  lemma {:induction false} LeastExists(ids: set<string>)
    requires ids != {}
    ensures exists m :: IsLeast(ids, m)
  {
    hide Less;
    var y :| y in ids;
    if ids == {y} {
      assert IsLeast(ids, y);
    } else {
      hide IsLeast;
      LeastExists(ids - {y});
      var m :| IsLeast(ids - {y}, m);
      LeastWith(ids, y, m);
    }
  }

  lemma LeastUnique(ids: set<string>, a: string, b: string)
    requires IsLeast(ids, a) && IsLeast(ids, b)
    ensures a == b
  {
    hide Less;
    if a != b {
      LessTransitive(a, b, a);
      LessIrreflexive(a);
    }
  }

  function Least(ids: set<string>): (m: string)
    requires ids != {}
    ensures m in ids && forall x :: x in ids ==> LessEq(m, x)
  {
    LeastExists(ids);
    assert forall a, b | IsLeast(ids, a) && IsLeast(ids, b) :: a == b by {
      forall a, b | IsLeast(ids, a) && IsLeast(ids, b) ensures a == b { LeastUnique(ids, a, b); }
    }
    var m :| IsLeast(ids, m);
    m
  }

  /** The table scan in key order: every member of `ids` once, ascending. */
  function SortSet(ids: set<string>): (s: seq<string>)
    ensures Ascending(s)
    ensures Elements(s) == ids && |s| == |ids|
    decreases |ids|
  {
    if ids == {} then [] else
      var m := Least(ids);
      var rest := SortSet(ids - {m});
      LeastFirst(ids, m, rest);
      [m] + rest
  }

  lemma LeastFirst(ids: set<string>, m: string, rest: seq<string>)
    requires m in ids && forall x :: x in ids ==> LessEq(m, x)
    requires Ascending(rest) && Elements(rest) == ids - {m} && |rest| == |ids - {m}|
    ensures Ascending([m] + rest) && Elements([m] + rest) == ids && |rest| + 1 == |ids|
  {
    hide Less;
    forall k | 0 <= k < |rest| ensures Less(m, rest[k]) {
      assert rest[k] in Elements(rest);
    }
    assert Elements([m] + rest) == {m} + Elements(rest);
  }

  /** An ascending sequence is determined by its members. */
  lemma {:induction false} AscendingUnique(s: seq<string>, t: seq<string>)
    requires Ascending(s) && Ascending(t) && Elements(s) == Elements(t)
    ensures s == t
  {
    StrictTotalOrder();
    if s == [] {
      assert forall i :: 0 <= i < |t| ==> t[i] in Elements(t);
    } else {
      assert s[0] in Elements(s);
      var k :| 0 <= k < |t| && t[k] == s[0];
      assert t[0] in Elements(t);
      var l :| 0 <= l < |s| && s[l] == t[0];
      assert s[0] == t[0];
      forall x ensures x in Elements(s[1..]) <==> x in Elements(t[1..]) {
        TailElements(s, x);
        TailElements(t, x);
      }
      AscendingUnique(s[1..], t[1..]);
      assert s == [s[0]] + s[1..] && t == [t[0]] + t[1..];
    }
  }

  lemma TailElements(s: seq<string>, x: string)
    requires Ascending(s) && s != []
    ensures x in Elements(s[1..]) <==> x in Elements(s) && x != s[0]
  {
    LessIrreflexive(s[0]);
    if x in Elements(s) && x != s[0] {
      var k :| 0 <= k < |s| && s[k] == x;
      assert s[1..][k - 1] == x;
    }
    if x in Elements(s[1..]) {
      var k :| 0 <= k < |s[1..]| && s[1..][k] == x;
      assert s[k + 1] == x && Less(s[0], s[k + 1]);
    }
  }

  /** One database page: the first `limit` rows after the cursor, in key order. */
  function Page(ids: set<string>, after: string, limit: nat): (p: seq<string>) {
    var rows := SortSet(Above(ids, after));
    if |rows| <= limit then rows else rows[..limit]
  }

  lemma SuffixMember(rows: seq<string>, n: nat, x: string)
    requires Ascending(rows) && 0 < n <= |rows|
    ensures x in Elements(rows[n..]) <==> x in Elements(rows) && Less(rows[n - 1], x)
  {
    if x in Elements(rows[n..]) {
      var k :| 0 <= k < |rows[n..]| && rows[n..][k] == x;
      assert rows[n + k] == x;
    }
    if x in Elements(rows) && Less(rows[n - 1], x) {
      var k :| 0 <= k < |rows| && rows[k] == x;
      if k < n - 1 { LessTransitive(x, rows[n - 1], x); }
      LessIrreflexive(x);
      assert rows[n..][k - n] == x;
    }
  }

  /** Dropping the first `n` rows of the scan is the scan after row `n - 1`. */
  lemma ScanSuffix(ids: set<string>, after: string, n: nat)
    requires 0 < n <= |SortSet(Above(ids, after))|
    ensures var rows := SortSet(Above(ids, after));
            rows[n..] == SortSet(Above(ids, rows[n - 1]))
  {
    var rows := SortSet(Above(ids, after));
    var last := rows[n - 1];
    var rest := rows[n..];
    assert last in Elements(rows);
    forall x ensures x in Elements(rest) <==> x in Above(ids, last) {
      SuffixMember(rows, n, x);
      if Less(last, x) { LessTransitive(after, last, x); }
    }
    AscendingUnique(rest, SortSet(Above(ids, last)));
  }

  /** Reading a page and moving the cursor to its last row loses and repeats nothing. */
  lemma PageSplit(ids: set<string>, after: string, limit: nat)
    requires limit > 0
    ensures var p := Page(ids, after, limit);
            && Ascending(p)
            && |p| <= limit
            && (p == [] ==> Above(ids, after) == {})
            && (p != [] ==> SortSet(Above(ids, after)) == p + SortSet(Above(ids, p[|p| - 1])))
            && (p != [] && |p| < limit ==> Above(ids, p[|p| - 1]) == {})
  {
    hide Less, SortSet, Above;
    var rows := SortSet(Above(ids, after));
    var p := Page(ids, after, limit);
    PageFacts(ids, after, limit);
    if p != [] {
      ScanSuffix(ids, after, |p|);
      assert rows == p + rows[|p|..];
      if |p| < limit { NoRows(Above(ids, p[|p| - 1])); }
    } else {
      NoRows(Above(ids, after));
    }
  }

  lemma NoRows(ids: set<string>)
    requires SortSet(ids) == []
    ensures ids == {}
  {
    assert Elements(SortSet(ids)) == {};
  }

  /** The rows of a page, without its relation to the rest of the scan. */
  lemma PageFacts(ids: set<string>, after: string, limit: nat)
    ensures var p := Page(ids, after, limit);
            Ascending(p) && |p| <= limit && forall k :: 0 <= k < |p| ==> p[k] in ids && Less(after, p[k])
  {
    var rows := SortSet(Above(ids, after));
    var p := Page(ids, after, limit);
    forall k | 0 <= k < |p| ensures p[k] in ids && Less(after, p[k]) {
      assert p[k] == rows[k] && rows[k] in Elements(rows);
    }
  }

  /** Nothing up to the last row of a page is skipped. */
  lemma PageCovers(ids: set<string>, after: string, limit: nat, x: string)
    requires limit > 0 && x in ids && Less(after, x)
    requires var p := Page(ids, after, limit); |p| < limit || LessEq(x, p[|p| - 1])
    ensures x in Page(ids, after, limit)
  {
    hide Less, SortSet;
    var rows := SortSet(Above(ids, after));
    var p := Page(ids, after, limit);
    assert x in Elements(rows);
    var k :| 0 <= k < |rows| && rows[k] == x;
    if k >= |p| {
      assert Less(p[|p| - 1], rows[k]);
      if Less(x, p[|p| - 1]) { LessTransitive(x, p[|p| - 1], x); }
      LessIrreflexive(x);
    } else {
      assert p[k] == x;
    }
  }

  lemma Shift<T>(a: seq<T>, todo: seq<T>, whole: seq<T>)
    requires todo != [] && a + todo == whole
    ensures (a + [todo[0]]) + todo[1..] == whole
  {
    assert todo == [todo[0]] + todo[1..];
  }

  /** `sort.Strings`: insertion into an already sorted sequence, then the whole sort. */
  function Insert(x: string, s: seq<string>): (r: seq<string>)
    requires NonDescending(s)
    ensures NonDescending(r) && multiset(r) == multiset(s) + multiset{x}
  {
    if s == [] then
      [x]
    else if LessEq(x, s[0]) then
      PrependKeepsOrder(x, s);
      [x] + s
    else
      assert s == [s[0]] + s[1..];
      var rest := Insert(x, s[1..]);
      LessTotal(x, s[0]);
      assert forall y :: y in rest ==> y in multiset(rest);
      PrependKeepsOrder(s[0], rest);
      [s[0]] + rest
  }

  lemma PrependKeepsOrder(x: string, s: seq<string>)
    requires NonDescending(s)
    requires s == [] || LessEq(x, s[0]) || forall y :: y in s ==> LessEq(x, y)
    ensures NonDescending([x] + s)
  {
    forall j | 0 <= j < |s| ensures LessEq(x, s[j]) {
      if j > 0 && Less(x, s[0]) && Less(s[0], s[j]) { LessTransitive(x, s[0], s[j]); }
    }
  }

  function Sort(s: seq<string>): (r: seq<string>)
    ensures NonDescending(r) && multiset(r) == multiset(s) && |r| == |s|
  {
    if s == [] then [] else
      assert s == [s[0]] + s[1..];
      var r := Insert(s[0], Sort(s[1..]));
      assert |multiset(r)| == |r| && |multiset(s)| == |s|;
      r
  }
}
