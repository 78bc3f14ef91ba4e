/** Keyset sweeps: the pull and push forms of the linear sweep. A page is read from whatever
the table holds at that moment. */
module Keyset {
  import opened Content
  import opened Order

  const KEYSET_PAGE_SIZE := 1000

  datatype Pull = Item(id: Id) | End | Failed

  /** The table as the sweep meets it: `world(k)` at the k-th page read. */
  type Tables = nat -> set<Id>

  /** `x` was there at every one of the first `n` page reads. */
  ghost predicate Stays(world: Tables, n: nat, x: Id) {
    forall k: nat :: k < n ==> x in world(k)
  }

  ghost predicate Static(world: Tables, ids: set<Id>) {
    forall k: nat :: world(k) == ids
  }

  /** `x` was there at some of the first `n` page reads. */
  ghost predicate Appeared(world: Tables, n: nat, x: Id) {
    exists k: nat :: k < n && x in world(k)
  }

  /** The ids delivered lie after the start and up to the cursor, in order, and were there. */
  ghost predicate InOrder(world: Tables, n: nat, start: Id, all: seq<Id>, after: Id) {
    && Ascending(all)
    && LessEq(start, after)
    && (forall k :: 0 <= k < |all| ==> Less(start, all[k]) && LessEq(all[k], after) && Appeared(world, n, all[k]))
  }

  /** No id that stayed in the table was skipped up to the cursor, or at all once `done`. */
  ghost predicate Covers(world: Tables, n: nat, start: Id, all: seq<Id>, after: Id, done: bool) {
    forall x {:trigger Stays(world, n, x)} ::
      Stays(world, n, x) && Less(start, x) && (done || LessEq(x, after)) ==> x in all
  }

  /** The state of a sweep after `n` page reads that yielded `all`. */
  ghost predicate Swept(world: Tables, n: nat, start: Id, all: seq<Id>, after: Id, done: bool) {
    InOrder(world, n, start, all, after) && Covers(world, n, start, all, after, done)
  }

  lemma SweepBegins(world: Tables, start: Id)
    ensures Swept(world, 0, start, [], start, false)
  {
    forall x | Less(start, x) ensures !LessEq(x, start) {
      LessIrreflexive(x);
      if Less(x, start) { LessTransitive(x, start, x); }
    }
  }

  lemma StaysLess(world: Tables, n: nat, x: Id)
    requires Stays(world, n + 1, x)
    ensures Stays(world, n, x) && x in world(n)
  {
  }

  lemma ConcatAscending(a: seq<Id>, b: seq<Id>, mid: Id)
    requires Ascending(a) && Ascending(b)
    requires (forall k :: 0 <= k < |a| ==> LessEq(a[k], mid)) && (forall k :: 0 <= k < |b| ==> Less(mid, b[k]))
    ensures Ascending(a + b)
  {
    forall i, j | 0 <= i < j < |a + b| ensures Less((a + b)[i], (a + b)[j]) {
      if i < |a| <= j {
        if a[i] != mid { LessTransitive(a[i], mid, b[j - |a|]); }
      }
    }
  }

  function Cursor(p: seq<Id>, after: Id): Id {
    if p == [] then after else p[|p| - 1]
  }

  lemma PageKeepsOrder(world: Tables, n: nat, start: Id, all: seq<Id>, after: Id, p: seq<Id>)
    requires InOrder(world, n, start, all, after) && Ascending(p)
    requires forall k :: 0 <= k < |p| ==> p[k] in world(n) && Less(after, p[k])
    ensures InOrder(world, n + 1, start, all + p, Cursor(p, after))
  {
    ConcatAscending(all, p, after);
    var last := Cursor(p, after);
    if p != [] && after != start { LessTransitive(start, after, last); }
    forall k | 0 <= k < |all| ensures LessEq(all[k], last) && Appeared(world, n + 1, all[k]) {
      if p != [] && all[k] != after { LessTransitive(all[k], after, last); }
      var m: nat :| m < n && all[k] in world(m);
      assert m < n + 1;
    }
    forall k | 0 <= k < |p| ensures Less(start, p[k]) && LessEq(p[k], last) && Appeared(world, n + 1, p[k]) {
      if after != start { LessTransitive(start, after, p[k]); }
    }
  }

  lemma PageKeepsCover(world: Tables, n: nat, start: Id, all: seq<Id>, after: Id, pageSize: nat)
    requires pageSize > 0 && Covers(world, n, start, all, after, false)
    ensures var p := Page(world(n), after, pageSize);
            Covers(world, n + 1, start, all + p, Cursor(p, after), |p| < pageSize)
  {
    var p := Page(world(n), after, pageSize);
    forall x {:trigger Stays(world, n + 1, x)} |
      Stays(world, n + 1, x) && Less(start, x) && (|p| < pageSize || LessEq(x, Cursor(p, after)))
      ensures x in all + p
    {
      StaysLess(world, n, x);
      LessTotal(after, x);
      if Less(after, x) {
        PageCovers(world(n), after, pageSize, x);
      } else {
        assert x in all;
      }
    }
  }

  lemma SweepReadsPage(world: Tables, n: nat, start: Id, all: seq<Id>, after: Id, pageSize: nat)
    requires pageSize > 0 && Swept(world, n, start, all, after, false)
    ensures var p := Page(world(n), after, pageSize);
            Swept(world, n + 1, start, all + p, Cursor(p, after), |p| < pageSize)
  {
    PageFacts(world(n), after, pageSize);
    PageKeepsOrder(world, n, start, all, after, Page(world(n), after, pageSize));
    PageKeepsCover(world, n, start, all, after, pageSize);
  }

  /** On a static table a page and what the cursor still sees make up the scan. */
  lemma PageThenRest(ids: set<Id>, after: Id, pageSize: nat)
    requires pageSize > 0
    ensures var p := Page(ids, after, pageSize);
            && |p| <= pageSize
            && SortSet(Above(ids, after)) == p + (if |p| < pageSize then [] else SortSet(Above(ids, Cursor(p, after))))
  {
    PageSplit(ids, after, pageSize);
  }

  /** The closure state of `keysetPull`. `fetches` counts page reads and `given` is every item
  handed out; the rows read so far are those and the rest of the page. */
  class KeysetPull {
    const start: Id
    const pageSize: nat
    var after: Id
    var page: seq<Id>
    var i: nat
    var done: bool
    var fetches: nat
    ghost var given: seq<Id>

    ghost predicate Valid(world: Tables)
      reads this
    {
      pageSize > 0 && i <= |page| && Swept(world, fetches, start, given + page[i..], after, done)
    }

    /** What is still to come when the table stays at `ids`. */
    ghost function Remaining(ids: set<Id>): seq<Id>
      reads this
      requires i <= |page|
    {
      page[i..] + (if done then [] else SortSet(Above(ids, after)))
    }

    constructor (start: Id, pageSize: nat, ghost world: Tables, ghost ids: set<Id>)
      requires pageSize > 0
      ensures Valid(world) && given == [] && this.start == start && this.pageSize == pageSize
      ensures Remaining(ids) == SortSet(Above(ids, start))
    {
      this.start, this.pageSize := start, pageSize;
      after, page, i, done, fetches := start, [], 0, false, 0;
      given := [];
      new;
      hide Swept, Less, SortSet, Above;
      NothingRead(world, start, given, page, SortSet(Above(ids, start)));
    }

    /** Reads one page into an empty buffer. */
    method Fetch(world: Tables, ghost ids: set<Id>)
      requires Valid(world) && i == |page| && !done
      modifies this
      ensures Valid(world) && given == old(given)
      ensures i < |page| || done
      ensures Static(world, ids) ==> Remaining(ids) == old(Remaining(ids))
    {
      hide Swept, Less, Page, SortSet, Above;
      var p := Page(world(fetches), after, pageSize);
      PageThenRest(world(fetches), after, pageSize);
      assert given + page[i..] == given && p[0..] == p;
      SweepReadsPage(world, fetches, start, given, after, pageSize);
      fetches := fetches + 1;
      if |p| < pageSize {
        done := true;
      }
      page, i := p, 0;
      if |p| > 0 {
        after := p[|p| - 1];
      }
    }

    /** One call of `next`. `faulty(k)` says whether the k-th page read fails. On a table that
    stays at `ids` the calls deliver the scan of `ids` one by one. */
    method Next(world: Tables, faulty: nat -> bool, ghost ids: set<Id>) returns (r: Pull)
      requires Valid(world)
      modifies this
      ensures Valid(world)
      ensures given == if r.Item? then old(given) + [r.id] else old(given)
      ensures r.End? ==> done && i == |page|
      ensures r.Failed? ==> faulty(fetches)
      ensures Static(world, ids) && !r.Failed? ==>
                var todo := old(Remaining(ids));
                if todo == [] then r == End && Remaining(ids) == [] else r == Item(todo[0]) && Remaining(ids) == todo[1..]
    {
      hide Swept, Less, SortSet, Above;
      while i >= |page|
        invariant Valid(world) && given == old(given)
        invariant Static(world, ids) ==> Remaining(ids) == old(Remaining(ids))
        decreases if i < |page| then 0 else if done then 1 else 2
      {
        if done {
          return End;
        }
        if faulty(fetches) {
          return Failed;
        }
        Fetch(world, ids);
      }
      assert page[i..] == [page[i]] + page[i + 1..];
      assert given + page[i..] == (given + [page[i]]) + page[i + 1..];
      given := given + [page[i]];
      i := i + 1;
      return Item(page[i - 1]);
    }
  }

  /** What the state of a sweep says about the items handed out. */
  ghost predicate Delivered(world: Tables, n: nat, start: Id, given: seq<Id>, complete: bool) {
    && Ascending(given) && (forall k :: 0 <= k < |given| ==> Less(start, given[k]) && Appeared(world, n, given[k]))
    && (given != [] ==> Less(Cursor(given[..|given| - 1], start), given[|given| - 1]))
    && (complete ==> forall x {:trigger Stays(world, n, x)} :: Stays(world, n, x) && Less(start, x) ==> x in given)
  }

  lemma NothingRead(world: Tables, start: Id, given: seq<Id>, page: seq<Id>, scan: seq<Id>)
    requires given == [] && page == []
    ensures Swept(world, 0, start, given + page[0..], start, false) && page[0..] + scan == scan
  {
    hide Swept;
    SweepBegins(world, start);
    assert given + page[0..] == [];
  }

  ghost predicate Within(world: Tables, universe: set<Id>) {
    forall k: nat :: world(k) <= universe
  }

  lemma AboveShrinks(universe: set<Id>, a: Id, b: Id)
    requires Less(a, b) && b in universe
    ensures Above(universe, b) < Above(universe, a)
  {
    StrictTotalOrder();
    assert b in Above(universe, a) && b !in Above(universe, b);
  }

  lemma GivenInUniverse(world: Tables, n: nat, universe: set<Id>, x: Id)
    requires Within(world, universe) && Appeared(world, n, x)
    ensures x in universe
  {
    var k: nat :| k < n && x in world(k);
    assert world(k) <= universe;
  }

  lemma SweptDelivers(world: Tables, n: nat, start: Id, given: seq<Id>, rest: seq<Id>, after: Id, done: bool)
    requires Swept(world, n, start, given + rest, after, done)
    ensures Delivered(world, n, start, given, done && rest == [])
  {
    hide Less, Stays, Appeared;
    var all := given + rest;
    assert forall k :: 0 <= k < |given| ==> given[k] == all[k];
    if rest == [] { assert all == given; }
  }

  /** One more item moves the cursor strictly up inside the universe. */
  lemma DeliveredMoves(world: Tables, n: nat, start: Id, visited: seq<Id>, id: Id, complete: bool, universe: set<Id>)
    requires Delivered(world, n, start, visited + [id], complete) && Within(world, universe)
    ensures Above(universe, Cursor(visited + [id], start)) < Above(universe, Cursor(visited, start))
  {
    hide Less, Stays, Appeared, Above, Within, Ascending;
    var all := visited + [id];
    assert all[..|all| - 1] == visited && all[|visited|] == id;
    GivenInUniverse(world, n, universe, id);
    AboveShrinks(universe, Cursor(visited, start), id);
  }

  /** The linear sweep over a table that changes between pages, inside a finite universe of
  ids. It visits ids in strictly ascending order, so none twice, and a sweep that ends
  without an error visited every id that stayed in the table throughout. `refuses(x)` says
  whether the visitor returns an error on `x`. */
  method KeysetLoop(start: Id, pageSize: nat, world: Tables, faulty: nat -> bool, refuses: Id -> bool,
                    ghost universe: set<Id>, ghost ids: set<Id>)
    returns (visited: seq<Id>, ok: bool, fetches: nat)
    requires pageSize > 0
    requires Within(world, universe)
    ensures Ascending(visited)
    ensures forall k :: 0 <= k < |visited| ==> Less(start, visited[k]) && Appeared(world, fetches, visited[k])
    ensures ok ==> forall x {:trigger Stays(world, fetches, x)} :: Stays(world, fetches, x) && Less(start, x) ==> x in visited
    ensures !ok ==> faulty(fetches) || (visited != [] && refuses(visited[|visited| - 1]))
    ensures ok && Static(world, ids) ==> visited == SortSet(Above(ids, start))
  {
    hide Less, LessEq, Ascending, Page, SortSet, Above, Swept, Stays, Appeared, Static, Within, Delivered, Cursor;
    var next := new KeysetPull(start, pageSize, world, ids);
    visited := [];
    while true
      invariant next.Valid(world) && next.given == visited && next.start == start
      invariant Static(world, ids) ==> visited + next.Remaining(ids) == SortSet(Above(ids, start))
      decreases Above(universe, Cursor(visited, start))
    {
      ghost var todo := next.Remaining(ids);
      var item := next.Next(world, faulty, ids);
      fetches := next.fetches;
      SweptDelivers(world, fetches, start, next.given, next.page[next.i..], next.after, next.done);
      match item
      case Failed =>
        DeliveredFacts(world, fetches, start, visited, false);
        return visited, false, fetches;
      case End =>
        DeliveredFacts(world, fetches, start, visited, true);
        assert visited + [] == visited;
        return visited, true, fetches;
      case Item(id) =>
        if Static(world, ids) { Shift(visited, todo, SortSet(Above(ids, start))); }
        DeliveredMoves(world, fetches, start, visited, id, next.done && next.page[next.i..] == [], universe);
        visited := visited + [id];
        if refuses(id) {
          DeliveredFacts(world, fetches, start, visited, false);
          return visited, false, fetches;
        }
    }
  }

  lemma DeliveredFacts(world: Tables, n: nat, start: Id, given: seq<Id>, complete: bool)
    requires Delivered(world, n, start, given, complete) || (!complete && Delivered(world, n, start, given, true))
    ensures Ascending(given) && forall k :: 0 <= k < |given| ==> Less(start, given[k]) && Appeared(world, n, given[k])
    ensures complete ==> forall x {:trigger Stays(world, n, x)} :: Stays(world, n, x) && Less(start, x) ==> x in given
  {
    hide Less, Stays, Appeared, Ascending, Cursor;
  }
}
