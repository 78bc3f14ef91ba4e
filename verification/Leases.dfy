/** Claims as leases. The reaper takes back a row by age alone and a settlement is guarded
by status alone, so who owns a row rests on an inequality between configured times. */
module Leases {
  import opened Content
  import opened OutboxStore

  /** The numeric knobs that `validateLimits` relates, in seconds. */
  datatype Config = Config(concurrency: int, perObjectTimeout: int, staleTTL: int, pollEvery: int, manifestEvery: int,
                           circuitCooldown: int, fanoutStall: int, dbTimeout: int, circuitThreshold: int,
                           maxAttempts: int, maxDeliveries: int, metricsPort: int)

  const BOOKKEEPING := 15
  const MAX_SEC := 7 * 24 * 60 * 60

  /** The checks of `validateLimits`. */
  predicate ValidLimits(c: Config) {
    && c.concurrency <= 1024
    && (forall s :: s in [c.perObjectTimeout, c.staleTTL, c.pollEvery, c.manifestEvery, c.circuitCooldown, c.fanoutStall, c.dbTimeout]
                    ==> s <= MAX_SEC)
    && c.staleTTL > c.perObjectTimeout + 2 * BOOKKEEPING
    && c.circuitThreshold < c.maxAttempts
    && c.dbTimeout >= BOOKKEEPING
    && c.fanoutStall < c.perObjectTimeout
    && c.metricsPort <= 65535 && c.maxAttempts <= 1000 && c.maxDeliveries <= 1000 && c.circuitThreshold <= 10000
  }

  function Lim(c: Config): Limits {
    Limits(c.maxAttempts, c.maxDeliveries)
  }

  /** The longest a live worker holds a claim: its timeout and two detached writes. */
  function Longest(c: Config): int {
    c.perObjectTimeout + 2 * BOOKKEEPING
  }

  datatype Lease = Lease(row: RowId, claimedAt: int)

  datatype World = World(now: int, rows: Rows, live: map<nat, Lease>)

  datatype Move =
    | Arrive(id: RowId, row: Row)
    | Wait(to: int)
    | ClaimBy(w: nat, id: RowId)
    | SettleBy(w: nat, how: Settlement)
    | Crash(w: nat)
    | ReapNow

  /** One move. `Wait` is where the timing hypothesis sits: no live claim outlives
  `Longest`, since a live worker would have settled by then. */
  function Play(c: Config, g: World, m: Move): Option<World> {
    match m
    case Arrive(id, row) => Some(g.(rows := Apply(Lim(c), g.rows, Enqueue(id, row))))
    case Wait(to) =>
      if g.now <= to && forall w :: w in g.live ==> to <= g.live[w].claimedAt + Longest(c) then Some(g.(now := to)) else None
    case ClaimBy(w, id) =>
      if w !in g.live && id in g.rows && Claimable(g.rows[id], g.now) then
        Some(g.(rows := Apply(Lim(c), g.rows, Claim({id}, g.now)), live := g.live[w := Lease(id, g.now)]))
      else None
    case SettleBy(w, how) =>
      if w in g.live then
        Some(g.(rows := Apply(Lim(c), g.rows, Settle(g.live[w].row, how, g.now)), live := g.live - {w}))
      else None
    case Crash(w) => Some(g.(live := g.live - {w}))
    case ReapNow => Some(g.(rows := Apply(Lim(c), g.rows, Reap(g.now, c.staleTTL))))
  }

  function PlayAll(c: Config, g: World, moves: seq<Move>): Option<World>
    decreases |moves|
  {
    if moves == [] then Some(g) else
    match Play(c, g, moves[0])
    case None => None
    case Some(g1) => PlayAll(c, g1, moves[1..])
  }

  /** A live worker's row is in progress under exactly its own claim. */
  predicate OwnsClaim(g: World, w: nat)
    requires w in g.live
  {
    var l := g.live[w];
    l.row in g.rows && g.rows[l.row].status.InProgress? && g.rows[l.row].claimedAt == Some(l.claimedAt)
  }

  /** Every live worker owns its row, and no row has two live workers. */
  predicate Exclusive(c: Config, g: World) {
    && (forall w :: w in g.live ==> OwnsClaim(g, w) && g.now <= g.live[w].claimedAt + Longest(c))
    && (forall v, w :: v in g.live && w in g.live && v != w ==> g.live[v].row != g.live[w].row)
  }

  lemma PlayKeepsExclusive(c: Config, g: World, m: Move)
    requires c.staleTTL >= Longest(c) && c.perObjectTimeout >= 0
    requires Exclusive(c, g) && Play(c, g, m).Some?
    ensures Exclusive(c, Play(c, g, m).value)
  {
    hide Pow2, Backoff;
  }

  /** The lease theorem: when the reaper's TTL is at least the longest settling time, every
  run keeps claims exclusive, so each row has at most one live worker, no live claim is
  ever reaped, and every settlement acts on the settling worker's own claim. */
  lemma {:induction false} ClaimsStayExclusive(c: Config, g: World, moves: seq<Move>)
    requires c.staleTTL >= Longest(c) && c.perObjectTimeout >= 0
    requires Exclusive(c, g) && PlayAll(c, g, moves).Some?
    ensures Exclusive(c, PlayAll(c, g, moves).value)
    decreases |moves|
  {
    if moves != [] {
      PlayKeepsExclusive(c, g, moves[0]);
      ClaimsStayExclusive(c, Play(c, g, moves[0]).value, moves[1..]);
    }
  }

  function Blank(now: int): World {
    World(now, map[], map[])
  }

  /** The validated configuration implies the theorem from an empty outbox, and the reaper
  then leaves every live worker's row alone. */
  lemma ValidatedClaimsNeverReaped(c: Config, now: int, moves: seq<Move>, w: nat)
    requires ValidLimits(c) && c.perObjectTimeout >= 0
    requires PlayAll(c, Blank(now), moves).Some? && w in PlayAll(c, Blank(now), moves).value.live
    ensures var g := PlayAll(c, Blank(now), moves).value;
            && OwnsClaim(g, w)
            && (forall v :: v in g.live && v != w ==> g.live[v].row != g.live[w].row)
            && Apply(Lim(c), g.rows, Reap(g.now, c.staleTTL))[g.live[w].row] == g.rows[g.live[w].row]
  {
    ClaimsStayExclusive(c, Blank(now), moves);
  }

  lemma {:induction false} PlayAppend(c: Config, g: World, moves: seq<Move>, m: Move)
    requires PlayAll(c, g, moves).Some?
    ensures PlayAll(c, g, moves + [m]) == Play(c, PlayAll(c, g, moves).value, m)
    decreases |moves|
  {
    if moves == [] {
      assert moves + [m] == [m];
    } else {
      assert (moves + [m])[1..] == moves[1..] + [m];
      PlayAppend(c, Play(c, g, moves[0]).value, moves[1..], m);
    }
  }

  /** The bound is exact: with any shorter TTL some run reaps a row under its live worker. */
  lemma ShorterTTLReapsLiveClaim(c: Config, key: Id) returns (moves: seq<Move>)
    requires c.staleTTL < Longest(c) && c.perObjectTimeout >= 0
    ensures PlayAll(c, Blank(0), moves) ==
            Some(World(Longest(c), map[0 := ReapRow(Lim(c), ClaimRow(NewRow(key), 0))], map[0 := Lease(0, 0)]))
    ensures !Exclusive(c, PlayAll(c, Blank(0), moves).value)
  {
    var r := NewRow(key);
    moves := [];
    PlayAppend(c, Blank(0), moves, Arrive(0, r));
    moves := moves + [Arrive(0, r)];
    PlayAppend(c, Blank(0), moves, ClaimBy(0, 0));
    moves := moves + [ClaimBy(0, 0)];
    assert Apply(Lim(c), map[0 := r], Claim({0}, 0)) == map[0 := ClaimRow(r, 0)];
    PlayAppend(c, Blank(0), moves, Wait(Longest(c)));
    moves := moves + [Wait(Longest(c))];
    PlayAppend(c, Blank(0), moves, ReapNow);
    moves := moves + [ReapNow];
    assert Apply(Lim(c), map[0 := ClaimRow(r, 0)], Reap(Longest(c), c.staleTTL)) == map[0 := ReapRow(Lim(c), ClaimRow(r, 0))];
    assert !OwnsClaim(PlayAll(c, Blank(0), moves).value, 0);
  }

  /** The status guard alone protects no claim. With a shorter TTL some run reaps a row,
  hands it to a second worker, and lets the stale first one settle the second's claim. */
  lemma StaleWorkerSettlesOthersClaim(c: Config, key: Id, how: Settlement) returns (moves: seq<Move>)
    requires c.staleTTL < Longest(c) && c.perObjectTimeout >= 0 && c.maxDeliveries > 1
    ensures PlayAll(c, Blank(0), moves).Some?
    ensures var g := PlayAll(c, Blank(0), moves).value;
            && 1 in g.live && 0 in g.live && OwnsClaim(g, 1)
            && !OwnsClaim(Play(c, g, SettleBy(0, how)).value, 1)
  {
    moves := ShorterTTLReapsLiveClaim(c, key);
    var r := ReapRow(Lim(c), ClaimRow(NewRow(key), 0));
    PlayAppend(c, Blank(0), moves, ClaimBy(1, 0));
    moves := moves + [ClaimBy(1, 0)];
    assert Apply(Lim(c), map[0 := r], Claim({0}, Longest(c))) == map[0 := ClaimRow(r, Longest(c))];
  }
}
