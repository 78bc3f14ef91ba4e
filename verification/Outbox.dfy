/** The backup outbox: each repository method is one UPDATE of row columns. */
module OutboxStore {
  import opened Content

  datatype Status = Pending | InProgress | IsDone | DeadLetter | Skipped

  /** The nullable columns are options; the database owns them and may leave NULLs. */
  datatype Row = Row(externalID: Id, status: Status, attempts: Option<nat>, deliveries: Option<nat>,
                     claimedAt: Option<int>, visibleAt: Option<int>, priority: int, createdDate: Option<int>)

  /** The outbox primary key. */
  type RowId = nat

  type Rows = map<RowId, Row>

  datatype Limits = Limits(maxAttempts: int, maxDeliveries: int)

  function Coalesce(n: Option<nat>): nat {
    if n.Some? then n.value else 0
  }

  // ---- the statements, row by row ------------------------------------------------

  predicate Claimable(r: Row, now: int) {
    r.status.Pending? && (r.visibleAt.None? || r.visibleAt.value <= now)
  }

  function ClaimRow(r: Row, now: int): Row {
    r.(status := InProgress, claimedAt := Some(now))
  }

  function DeferRow(r: Row, now: int, jitter: nat): Row {
    r.(status := Pending, claimedAt := None, attempts := Some(0), visibleAt := Some(now + 120 + jitter))
  }

  function ReleaseRow(r: Row): Row {
    r.(status := Pending, claimedAt := None, visibleAt := None)
  }

  function Pow2(n: nat): nat {
    if n == 0 then 1 else 2 * Pow2(n - 1)
  }

  /** Seconds until a failed row is visible again. */
  function Backoff(attempts: nat): nat {
    var secs := 5 * Pow2(if attempts < 20 then attempts else 20);
    if secs < 600 then secs else 600
  }

  function FailRow(lim: Limits, r: Row, now: int): Row {
    var n := Coalesce(r.attempts) + 1;
    r.(attempts := Some(n), status := if n >= lim.maxAttempts then DeadLetter else Pending,
    claimedAt := None, visibleAt := Some(now + Backoff(Coalesce(r.attempts))))
  }

  predicate Stale(r: Row, now: int, ttl: int) {
    r.status.InProgress? && (r.claimedAt.None? || r.claimedAt.value < now - ttl)
  }

  function ReapRow(lim: Limits, r: Row): Row {
    var n := Coalesce(r.deliveries) + 1;
    r.(deliveries := Some(n), status := if n >= lim.maxDeliveries then DeadLetter else Pending, claimedAt := None)
  }

  /** What reaping does to a row, column by column. */
  predicate Reaped(lim: Limits, r: Row, s: Row) {
    && s.claimedAt.None? && s.deliveries == Some(Coalesce(r.deliveries) + 1)
    && (s.status.DeadLetter? <==> Coalesce(r.deliveries) + 1 >= lim.maxDeliveries) && (s.status.DeadLetter? || s.status.Pending?)
    && s.externalID == r.externalID && s.attempts == r.attempts && s.visibleAt == r.visibleAt
    && s.priority == r.priority && s.createdDate == r.createdDate
  }

  /** The rows that were not dead before and are now. */
  function NewlyDead(before: Rows, after: Rows): set<RowId>
    requires before.Keys == after.Keys
  {
    set id | id in after && after[id].status.DeadLetter? && !before[id].status.DeadLetter?
  }

  /** The reaper's statement carried out on every row outside `left`. */
  function ReapedSoFar(lim: Limits, rows: Rows, left: set<RowId>, now: int, ttl: int): (r: Rows)
    ensures r.Keys == rows.Keys
  {
    map id | id in rows :: if id !in left && Stale(rows[id], now, ttl) then ReapRow(lim, rows[id]) else rows[id]
  }

  lemma ReapNone(lim: Limits, rows: Rows, now: int, ttl: int)
    ensures ReapedSoFar(lim, rows, rows.Keys, now, ttl) == rows && NewlyDead(rows, rows) == {}
  {
  }

  lemma ReapOne(lim: Limits, rows: Rows, left: set<RowId>, now: int, ttl: int, id: RowId)
    requires id in left && id in rows
    ensures var before, after := ReapedSoFar(lim, rows, left, now, ttl), ReapedSoFar(lim, rows, left - {id}, now, ttl);
            var stale := Stale(rows[id], now, ttl);
            && before[id] == rows[id] && after == (if stale then before[id := ReapRow(lim, rows[id])] else before)
            && id !in NewlyDead(rows, before)
            && NewlyDead(rows, after) == NewlyDead(rows, before) + (if stale && ReapRow(lim, rows[id]).status.DeadLetter? then {id} else {})
  {
  }

  lemma ReapAll(lim: Limits, rows: Rows, now: int, ttl: int)
    ensures var after := ReapedSoFar(lim, rows, {}, now, ttl);
            && after == Apply(lim, rows, Reap(now, ttl))
            && forall id :: id in rows ==> if Stale(rows[id], now, ttl) then Reaped(lim, rows[id], after[id]) else after[id] == rows[id]
  {
  }

  predicate Fresh(r: Row) {
    r.status.Pending? && Coalesce(r.attempts) == 0 && Coalesce(r.deliveries) == 0 && r.claimedAt.None? && r.visibleAt.None?
  }

  /** A row as the producer enqueues it. */
  function NewRow(key: Id): (r: Row)
    ensures Fresh(r)
  {
    Row(key, Pending, Some(0), Some(0), None, None, 0, Some(0))
  }

  datatype Settlement = MarkDone | Defer(jitter: nat) | Fail | Release | Skip

  function SettleRow(lim: Limits, r: Row, how: Settlement, now: int): Row {
    match how
    case MarkDone => r.(status := IsDone)
    case Defer(jitter) => DeferRow(r, now, jitter)
    case Fail => FailRow(lim, r, now)
    case Release => ReleaseRow(r)
    case Skip => r.(status := Skipped, claimedAt := None)
  }

  /** Seconds until a row that has failed `attempts` times before is visible again. */
  function Wait(attempts: nat): nat {
    if attempts < 7 then [5, 10, 20, 40, 80, 160, 320][attempts] else 600
  }

  lemma {:induction false} Pow2Grows(n: nat)
    requires n >= 7
    ensures Pow2(n) >= 128
  {
    if n == 7 {
      assert Pow2(4) == 16;
    } else {
      Pow2Grows(n - 1);
    }
  }

  /** The clamped exponential is this table: doubling from five seconds, ten minutes at most. */
  lemma BackoffTable(attempts: nat)
    ensures Backoff(attempts) == Wait(attempts)
  {
    if attempts >= 7 {
      Pow2Grows(if attempts < 20 then attempts else 20);
    } else {
      assert Pow2(2) == 4 && Pow2(4) == 16 && Pow2(6) == 64;
    }
  }

  /** The columns that no settlement writes. */
  predicate SameObject(r: Row, s: Row) {
    s.externalID == r.externalID && s.deliveries == r.deliveries && s.priority == r.priority && s.createdDate == r.createdDate
  }

  /** What a settlement does to a row, column by column. */
  predicate Settled(lim: Limits, r: Row, s: Row, how: Settlement, now: int) {
    var failed := if r.attempts.Some? then r.attempts.value else 0;
    && SameObject(r, s)
    && match how
       case MarkDone => s.status == IsDone && s.attempts == r.attempts && s.claimedAt == r.claimedAt && s.visibleAt == r.visibleAt
       case Skip => s.status == Skipped && s.attempts == r.attempts && s.claimedAt == None && s.visibleAt == r.visibleAt
       case Release => s.status == Pending && s.attempts == r.attempts && s.claimedAt == None && s.visibleAt == None
       case Defer(jitter) => s.status == Pending && s.attempts == Some(0) && s.claimedAt == None && s.visibleAt == Some(now + 120 + jitter)
       case Fail =>
         && s.attempts == Some(failed + 1) && s.claimedAt == None && s.visibleAt == Some(now + Wait(failed))
         && s.status == if failed + 1 >= lim.maxAttempts then DeadLetter else Pending
  }

  lemma SettleColumns(lim: Limits, r: Row, how: Settlement, now: int)
    ensures Settled(lim, r, SettleRow(lim, r, how, now), how, now)
  {
    hide Backoff, Wait;
    BackoffTable(Coalesce(r.attempts));
  }

  /** When a settled row can be claimed again: at once after a release, two minutes and the
  jitter after a deferral, the table's wait after a failure that was not the last, and never
  after the rest. */
  lemma ClaimableAgain(lim: Limits, r: Row, how: Settlement, now: int, later: int)
    ensures var failed := if r.attempts.Some? then r.attempts.value else 0;
            Claimable(SettleRow(lim, r, how, now), later) <==>
              match how
              case MarkDone => false
              case Skip => false
              case Release => true
              case Defer(jitter) => later >= now + 120 + jitter
              case Fail => failed + 1 < lim.maxAttempts && later >= now + Wait(failed)
  {
    hide Backoff, Wait;
    BackoffTable(Coalesce(r.attempts));
  }

  /** A claim made at `now` is stale from one second past its time to live, and a claim
  without a time at once; nothing else is ever stale. */
  lemma StaleExactly(r: Row, now: int, later: int, ttl: int)
    ensures Stale(ClaimRow(r, now), later, ttl) <==> later > now + ttl
    ensures Stale(ClaimRow(r, now).(claimedAt := None), later, ttl)
    ensures r.status != InProgress ==> !Stale(r, later, ttl)
  {
  }

  datatype Event =
    | Enqueue(id: RowId, row: Row)
    | Claim(ids: set<RowId>, now: int)
    | Settle(id: RowId, how: Settlement, now: int)
    | Reap(now: int, ttl: int)

  /** What one statement does to the table. Every settlement is guarded by
  status='in_progress' and by nothing else. */
  function Apply(lim: Limits, rows: Rows, e: Event): Rows {
    match e
    case Enqueue(id, row) => if id !in rows && Fresh(row) then rows[id := row] else rows
    case Claim(ids, now) =>
      map id | id in rows :: if id in ids && Claimable(rows[id], now) then ClaimRow(rows[id], now) else rows[id]
    case Settle(id, how, now) =>
      if id in rows && rows[id].status.InProgress? then rows[id := SettleRow(lim, rows[id], how, now)] else rows
    case Reap(now, ttl) =>
      map id | id in rows :: if Stale(rows[id], now, ttl) then ReapRow(lim, rows[id]) else rows[id]
  }

  /** ORDER BY priority DESC, "createdDate" (nulls last). */
  predicate Before(r: Row, s: Row) {
    r.priority > s.priority ||
    (r.priority == s.priority && r.createdDate.Some? && (s.createdDate.Some? ==> r.createdDate.value < s.createdDate.value))
  }

  /** `r` is served no later than `s`: a higher priority first, then the older row, an undated
  one last. */
  predicate NotAfter(r: Row, s: Row) {
    || r.priority > s.priority
    || (r.priority == s.priority && (s.createdDate.None? || (r.createdDate.Some? && r.createdDate.value <= s.createdDate.value)))
  }

  lemma BeforeIsOrder(r: Row, s: Row)
    ensures !Before(s, r) <==> NotAfter(r, s)
  {
  }

  /** What a claim does to a row, column by column. */
  predicate Claimed(r: Row, s: Row, now: int) {
    && s.status == InProgress && s.claimedAt == Some(now)
    && s.attempts == r.attempts && s.visibleAt == r.visibleAt && SameObject(r, s)
  }

  lemma BeforeTransitive(r: Row, s: Row, t: Row)
    requires Before(r, s) && Before(s, t)
    ensures Before(r, t) && !Before(r, r)
  {
  }

  lemma {:induction false} FirstExists(rows: Rows, ids: set<RowId>)
    requires ids != {} && ids <= rows.Keys
    ensures exists m :: m in ids && forall x :: x in ids ==> !Before(rows[x], rows[m])
  {
    var y :| y in ids;
    var rest := ids - {y};
    if rest == {} {
      assert ids == {y} && !Before(rows[y], rows[y]);
    } else {
      FirstExists(rows, rest);
      var m :| m in rest && forall x :: x in rest ==> !Before(rows[x], rows[m]);
      var first := if Before(rows[y], rows[m]) then y else m;
      forall x | x in ids ensures !Before(rows[x], rows[first]) {
        assert x == y || x in rest;
        if Before(rows[x], rows[y]) && Before(rows[y], rows[m]) { BeforeTransitive(rows[x], rows[y], rows[m]); }
      }
    }
  }

  class OutboxRepo {
    const lim: Limits
    var rows: Rows

    constructor (maxAttempts: int, maxDeliveries: int)
      ensures lim == Limits(maxAttempts, maxDeliveries) && rows == map[]
    {
      lim := Limits(maxAttempts, maxDeliveries);
      rows := map[];
    }

    /** Claims up to `n` rows in claim order, skipping rows other transactions hold locked. */
    method ClaimRows(n: nat, now: int, locked: set<RowId>) returns (ids: seq<RowId>)
      modifies this
      ensures forall i, j :: 0 <= i < j < |ids| ==> ids[i] != ids[j]
      ensures rows == Apply(lim, old(rows), Claim((set x | x in ids), now))
      ensures forall x :: x in ids ==> x in old(rows) && x !in locked && Claimable(old(rows)[x], now)
      ensures |ids| <= n
      ensures forall x :: x in old(rows) && x !in locked && Claimable(old(rows)[x], now) && x !in ids ==>
                |ids| == n && forall y :: y in ids ==> NotAfter(old(rows)[y], old(rows)[x])
      ensures rows.Keys == old(rows).Keys && forall x :: x in rows ==>
                if x in ids then Claimed(old(rows)[x], rows[x], now) else rows[x] == old(rows)[x]
    {
      var left := set x | x in rows && x !in locked && Claimable(rows[x], now);
      ids := [];
      while |ids| < n && left != {}
        invariant |ids| <= n && left <= rows.Keys && rows == old(rows)
        invariant forall i, j :: 0 <= i < j < |ids| ==> ids[i] != ids[j]
        invariant forall x :: (x in rows && x !in locked && Claimable(rows[x], now)) <==> (x in left || x in ids)
        invariant forall x :: x in left ==> x !in ids
        invariant forall x, y :: x in left && y in ids ==> !Before(rows[x], rows[y])
        decreases left
      {
        FirstExists(rows, left);
        var m :| m in left && forall x :: x in left ==> !Before(rows[x], rows[m]);
        ids := ids + [m];
        left := left - {m};
      }
      forall x, y | x in rows && x !in ids && y in ids && !Before(rows[x], rows[y]) ensures NotAfter(rows[y], rows[x]) {
        BeforeIsOrder(rows[y], rows[x]);
      }
      rows := Apply(lim, rows, Claim((set x | x in ids), now));
    }

    /** `transition` and `Fail`: one guarded UPDATE. Reports a move to dead-letter. */
    method SettleRowById(id: RowId, how: Settlement, now: int) returns (deadLettered: bool)
      modifies this
      ensures rows == Apply(lim, old(rows), Settle(id, how, now))
      ensures rows.Keys == old(rows).Keys && forall x :: x in rows && x != id ==> rows[x] == old(rows)[x]
      ensures id in rows ==> if old(rows)[id].status.InProgress? then Settled(lim, old(rows)[id], rows[id], how, now)
                             else rows[id] == old(rows)[id]
      ensures deadLettered <==> id in rows && old(rows)[id].status.InProgress? && rows[id].status.DeadLetter?
    {
      hide Settled;
      deadLettered := false;
      if id in rows && rows[id].status.InProgress? {
        SettleColumns(lim, rows[id], how, now);
        var r := SettleRow(lim, rows[id], how, now);
        deadLettered := r.status.DeadLetter?;
        rows := rows[id := r];
      }
    }

    /** One statement over all rows. A row that is not stale is untouched; a stale one loses
    its claim, counts one delivery more, and goes back or, at the limit, to dead_letter. The
    result counts the rows that were not dead before and are now. */
    method ReapStale(now: int, ttl: int) returns (deadLettered: nat)
      modifies this
      ensures rows == Apply(lim, old(rows), Reap(now, ttl)) && rows.Keys == old(rows).Keys
      ensures forall id :: id in rows && !Stale(old(rows)[id], now, ttl) ==> rows[id] == old(rows)[id]
      ensures forall id :: id in rows && Stale(old(rows)[id], now, ttl) ==> Reaped(lim, old(rows)[id], rows[id])
      ensures deadLettered == |NewlyDead(old(rows), rows)|
    {
      hide Stale, ReapRow;
      var left := rows.Keys;
      deadLettered := 0;
      ReapNone(lim, rows, now, ttl);
      while left != {}
        invariant left <= old(rows).Keys
        invariant rows == ReapedSoFar(lim, old(rows), left, now, ttl)
        invariant deadLettered == |NewlyDead(old(rows), rows)|
        decreases left
      {
        var id :| id in left;
        ReapOne(lim, old(rows), left, now, ttl, id);
        if Stale(rows[id], now, ttl) {
          var r := ReapRow(lim, rows[id]);
          rows := rows[id := r];
          if r.status.DeadLetter? {
            deadLettered := deadLettered + 1;
          }
        }
        left := left - {id};
      }
      ReapAll(lim, old(rows), now, ttl);
    }

    /** Backlog depth and the age of the oldest counted row. */
    method BacklogStats(now: int) returns (pending: nat, oldestAge: int)
      ensures pending == |Backlog(rows, now)|
      ensures forall id :: id in Backlog(rows, now) && rows[id].createdDate.Some? ==> oldestAge >= now - rows[id].createdDate.value
      ensures oldestAge == 0 || exists id :: id in Backlog(rows, now) && rows[id].createdDate == Some(now - oldestAge)
      ensures (forall id :: id in Backlog(rows, now) ==> rows[id].createdDate.None?) ==> oldestAge == 0
    {
      var counted := Backlog(rows, now);
      pending := |counted|;
      var oldest: Option<int> := None;
      var left := counted;
      while left != {}
        invariant left <= counted
        invariant oldest.None? ==> forall id :: id in counted - left ==> rows[id].createdDate.None?
        invariant oldest.Some? ==> exists id :: id in counted && rows[id].createdDate == oldest
        invariant oldest.Some? ==> forall id :: id in counted - left && rows[id].createdDate.Some? ==> oldest.value <= rows[id].createdDate.value
        decreases left
      {
        var id :| id in left;
        var created := rows[id].createdDate;
        if created.Some? && (oldest.None? || created.value < oldest.value) {
          oldest := created;
        }
        left := left - {id};
      }
      assert counted - left == counted;
      oldestAge := if oldest.Some? then now - oldest.value else 0;
    }
  }

  /** The rows the backlog gauge counts. */
  function Backlog(rows: Rows, now: int): set<RowId> {
    set id | id in rows && rows[id].status.Pending? &&
             (rows[id].visibleAt.None? || (rows[id].visibleAt.value <= now && Coalesce(rows[id].attempts) > 0))
  }

  // ---- every run -----------------------------------------------------------------

  function Run(lim: Limits, events: seq<Event>): Rows {
    if events == [] then map[] else Apply(lim, Run(lim, events[..|events| - 1]), events[|events| - 1])
  }

  /** Whether the last event of a run settled row `id`, that is, found it in progress. */
  predicate Settles(lim: Limits, events: seq<Event>, id: RowId)
    requires events != []
  {
    var before, e := Run(lim, events[..|events| - 1]), events[|events| - 1];
    e.Settle? && e.id == id && id in before && before[id].status.InProgress?
  }

  predicate Reaps(lim: Limits, events: seq<Event>, id: RowId)
    requires events != []
  {
    var before, e := Run(lim, events[..|events| - 1]), events[|events| - 1];
    e.Reap? && id in before && Stale(before[id], e.now, e.ttl)
  }

  datatype Mark = Unmarked | Failed | Deferred | Released

  /** The latest Fail, Defer or Release that took effect on a row. */
  function LastMark(lim: Limits, events: seq<Event>, id: RowId): Mark {
    if events == [] then Unmarked else
      var e := events[|events| - 1];
      if !Settles(lim, events, id) || e.how.MarkDone? || e.how.Skip? then LastMark(lim, events[..|events| - 1], id)
      else if e.how.Fail? then Failed
      else if e.how.Defer? then Deferred
      else Released
  }

  lemma {:induction false} MarkShowsInColumns(lim: Limits, events: seq<Event>, id: RowId)
    ensures id !in Run(lim, events) ==> LastMark(lim, events, id).Unmarked?
    ensures id in Run(lim, events) ==>
              var r := Run(lim, events)[id];
              match LastMark(lim, events, id)
              case Unmarked => r.visibleAt.None?
              case Released => r.visibleAt.None?
              case Failed => r.visibleAt.Some? && Coalesce(r.attempts) > 0
              case Deferred => r.visibleAt.Some? && Coalesce(r.attempts) == 0
  {
    if events != [] { MarkShowsInColumns(lim, events[..|events| - 1], id); }
  }

  /** In every run a row has attempts 0 and visibleAt set if and only if its latest Fail,
  Defer or Release was a Defer; claims and reaps in between do not matter. */
  lemma DeferredIffColumns(lim: Limits, events: seq<Event>, id: RowId)
    requires id in Run(lim, events)
    ensures var r := Run(lim, events)[id];
            (Coalesce(r.attempts) == 0 && r.visibleAt.Some?) <==> LastMark(lim, events, id).Deferred?
  {
    MarkShowsInColumns(lim, events, id);
  }

  /** So the backlog gauge counts exactly the due pending rows that were not last deferred. */
  lemma BacklogExcludesExactlyDeferred(lim: Limits, events: seq<Event>, now: int)
    ensures var rows := Run(lim, events);
            Backlog(rows, now) == set id | id in rows && Claimable(rows[id], now) && !LastMark(lim, events, id).Deferred?
  {
    var rows := Run(lim, events);
    forall id | id in rows
      ensures id in Backlog(rows, now) <==> Claimable(rows[id], now) && !LastMark(lim, events, id).Deferred?
    {
      DeferredIffColumns(lim, events, id);
    }
    assert Backlog(rows, now) <= rows.Keys;
  }

  predicate Terminal(r: Row) {
    r.status.IsDone? || r.status.DeadLetter? || r.status.Skipped?
  }

  function AtLeastOne(n: int): nat {
    if n > 1 then n else 1
  }

  function ReapCount(lim: Limits, events: seq<Event>, id: RowId): nat {
    if events == [] then 0 else
      ReapCount(lim, events[..|events| - 1], id) + (if Reaps(lim, events, id) then 1 else 0)
  }

  lemma {:induction false} ReapsAreDeliveries(lim: Limits, events: seq<Event>, id: RowId)
    ensures id !in Run(lim, events) ==> ReapCount(lim, events, id) == 0
    ensures id in Run(lim, events) ==>
              var r := Run(lim, events)[id];
              && ReapCount(lim, events, id) == Coalesce(r.deliveries)
              && Coalesce(r.deliveries) <= AtLeastOne(lim.maxDeliveries)
              && (Coalesce(r.deliveries) == AtLeastOne(lim.maxDeliveries) ==> r.status.DeadLetter?)
  {
    if events != [] { ReapsAreDeliveries(lim, events[..|events| - 1], id); }
  }

  /** Any run reaps a row at most maxDeliveries times, however often it is deferred or
  released in between. */
  lemma ReapedAtMostMaxDeliveries(lim: Limits, events: seq<Event>, id: RowId)
    ensures ReapCount(lim, events, id) <= AtLeastOne(lim.maxDeliveries)
  {
    ReapsAreDeliveries(lim, events, id);
  }

  /** Row `id` was settled by nothing but Fail and the reaper. */
  predicate OnlyFailsAndReaps(lim: Limits, events: seq<Event>, id: RowId) {
    events == [] ||
    (OnlyFailsAndReaps(lim, events[..|events| - 1], id) &&
     (Settles(lim, events, id) ==> events[|events| - 1].how.Fail?))
  }

  function Settlements(lim: Limits, events: seq<Event>, id: RowId): nat {
    if events == [] then 0 else
      Settlements(lim, events[..|events| - 1], id) +
      (if Settles(lim, events, id) || Reaps(lim, events, id) then 1 else 0)
  }

  /** What a row can still absorb before it must be dead. */
  function Budget(lim: Limits, r: Row): int {
    (AtLeastOne(lim.maxAttempts) - Coalesce(r.attempts)) + (AtLeastOne(lim.maxDeliveries) - Coalesce(r.deliveries))
  }

  lemma {:induction false} BudgetSpent(lim: Limits, events: seq<Event>, id: RowId)
    requires OnlyFailsAndReaps(lim, events, id)
    ensures id !in Run(lim, events) ==> Settlements(lim, events, id) == 0
    ensures id in Run(lim, events) ==>
              var r := Run(lim, events)[id];
              && Settlements(lim, events, id) + Budget(lim, r) == AtLeastOne(lim.maxAttempts) + AtLeastOne(lim.maxDeliveries)
              && Budget(lim, r) >= 1
              && (!Terminal(r) ==> Coalesce(r.attempts) < AtLeastOne(lim.maxAttempts) && Coalesce(r.deliveries) < AtLeastOne(lim.maxDeliveries))
              && (Terminal(r) ==> r.status.DeadLetter?)
  {
    if events != [] { BudgetSpent(lim, events[..|events| - 1], id); }
  }

  /** A row settled only by Fail and ReapStale never absorbs more than
  maxAttempts + maxDeliveries - 1 settlements, and is dead-lettered by the last of them. */
  lemma DeadLetteredInTime(lim: Limits, events: seq<Event>, id: RowId)
    requires OnlyFailsAndReaps(lim, events, id) && id in Run(lim, events)
    ensures var bound := AtLeastOne(lim.maxAttempts) + AtLeastOne(lim.maxDeliveries) - 1;
            && Settlements(lim, events, id) <= bound
            && (Settlements(lim, events, id) == bound ==> Run(lim, events)[id].status.DeadLetter?)
  {
    BudgetSpent(lim, events, id);
  }
}
