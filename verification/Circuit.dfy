/** The per-target circuit breaker: a failure rate over a sliding window opens a circuit,
a cooldown half-opens it for one probe, a success while open closes it. */
module Circuit {
  import opened Content

  type Time = int

  /** The breaker's state as a value; the class below is proved against these functions. */
  datatype Breaker = Breaker(threshold: nat, cooldown: int,
                             recent: map<string, seq<bool>>, openUntil: map<string, Time>)

  function Fails(r: seq<bool>): nat {
    if r == [] then 0 else Fails(r[..|r| - 1]) + (if r[|r| - 1] then 0 else 1)
  }

  function Last(r: seq<bool>, n: nat): seq<bool> {
    if |r| > n then r[|r| - n..] else r
  }

  function Outcomes(b: Breaker, target: string): seq<bool> {
    if target in b.recent then b.recent[target] else []
  }

  predicate IsDown(b: Breaker, target: string) {
    target in b.openUntil
  }

  /** Whether this caller is let through as the half-open probe. */
  predicate Probes(b: Breaker, target: string, now: Time) {
    target in b.openUntil && now >= b.openUntil[target]
  }

  predicate Refused(b: Breaker, target: string, now: Time) {
    target in b.openUntil && now < b.openUntil[target]
  }

  function AfterOpen(b: Breaker, target: string, now: Time, later: Time): Breaker {
    if Probes(b, target, now) then b.(openUntil := b.openUntil[target := later + b.cooldown]) else b
  }

  function AfterRecord(b: Breaker, target: string, ok: bool, now: Time): Breaker {
    if ok && target in b.openUntil then
      b.(recent := b.recent - {target}, openUntil := b.openUntil - {target})
    else
      var r := Last(Outcomes(b, target) + [ok], 2 * b.threshold);
      var b1 := b.(recent := b.recent[target := r]);
      if Fails(r) >= b.threshold then b1.(openUntil := b.openUntil[target := now + b.cooldown]) else b1
  }

  method CountFails(r: seq<bool>) returns (fails: nat)
    ensures fails == Fails(r)
  {
    fails := 0;
    for k := 0 to |r|
      invariant fails == Fails(r[..k])
    {
      assert r[..k + 1][..k] == r[..k];
      if !r[k] {
        fails := fails + 1;
      }
    }
    assert r[..|r|] == r;
  }

  class CircuitBreaker {
    const threshold: nat
    const window: nat
    const cooldown: int
    var recent: map<string, seq<bool>>
    var openUntil: map<string, Time>

    ghost predicate Valid() reads this { threshold >= 1 && window == 2 * threshold }

    ghost function View(): Breaker reads this { Breaker(threshold, cooldown, recent, openUntil) }

    constructor (threshold: int, cooldown: int)
      ensures Valid() && View() == New(threshold, cooldown)
      ensures this.cooldown == cooldown && this.threshold >= 1 && (threshold >= 1 ==> this.threshold == threshold)
      ensures (threshold < 1 ==> this.threshold == 1) && recent == map[] && openUntil == map[]
    {
      var t := if threshold > 1 then threshold else 1;
      this.threshold := t;
      window := 2 * t;
      this.cooldown := cooldown;
      recent, openUntil := map[], map[];
    }

    /** Whether the caller must skip the target. `now` and `later` are the two clock reads. */
    method Open(target: string, now: Time, later: Time) returns (open: bool)
      requires Valid()
      modifies this`openUntil
      ensures Valid() && View() == AfterOpen(old(View()), target, now, later)
      ensures open == Refused(old(View()), target, now)
    {
      if target !in openUntil {
        return false;
      }
      if now < openUntil[target] {
        return true;
      }
      openUntil := openUntil[target := later + cooldown];
      return false;
    }

    method Record(target: string, ok: bool, now: Time)
      requires Valid()
      modifies this
      ensures Valid() && View() == AfterRecord(old(View()), target, ok, now)
    {
      hide Fails;
      if target in openUntil && ok {
        recent := recent - {target};
        openUntil := openUntil - {target};
        return;
      }
      var r := if target in recent then recent[target] else [];
      r := r + [ok];
      if |r| > window {
        r := r[|r| - window..];
      }
      recent := recent[target := r];
      var fails := CountFails(r);
      if fails >= threshold {
        openUntil := openUntil[target := now + cooldown];
      }
    }

    predicate Down(target: string)
      reads this
      ensures Down(target) <==> IsDown(View(), target)
    {
      target in openUntil
    }
  }

  function New(threshold: int, cooldown: int): Breaker {
    Breaker(if threshold > 1 then threshold else 1, cooldown, map[], map[])
  }

  // ---- all call sequences ------------------------------------------------------

  datatype Call = OpenAt(target: string, now: Time, later: Time) | RecordAt(target: string, ok: bool, now: Time)

  function Next(b: Breaker, c: Call): Breaker {
    match c
    case OpenAt(t, now, later) => AfterOpen(b, t, now, later)
    case RecordAt(t, ok, now) => AfterRecord(b, t, ok, now)
  }

  function Run(b: Breaker, calls: seq<Call>): Breaker {
    if calls == [] then b else Next(Run(b, calls[..|calls| - 1]), calls[|calls| - 1])
  }

  /** Enough failures among the last 2*threshold outcomes of a history. */
  predicate Tripped(threshold: nat, history: seq<bool>) {
    Fails(Last(history, 2 * threshold)) >= threshold
  }

  /** Reference: every outcome recorded for a target since the last success that found it
  tripped. It knows neither the kept window nor the open entries. */
  function SinceClose(threshold: nat, calls: seq<Call>, t: string): seq<bool> {
    if calls == [] then [] else
      var h := SinceClose(threshold, calls[..|calls| - 1], t);
      var c := calls[|calls| - 1];
      if c.OpenAt? || c.target != t then h
      else if c.ok && Tripped(threshold, h) then []
      else h + [c.ok]
  }

  lemma {:induction false} FailsConcat(a: seq<bool>, b: seq<bool>)
    ensures Fails(a + b) == Fails(a) + Fails(b)
  {
    if b == [] {
      assert a + b == a;
    } else {
      assert (a + b)[..|a + b| - 1] == a + b[..|b| - 1];
      FailsConcat(a, b[..|b| - 1]);
    }
  }

  lemma {:induction false} FailsBound(a: seq<bool>)
    ensures Fails(a) <= |a|
  {
    if a != [] { FailsBound(a[..|a| - 1]); }
  }

  /** Appending to the kept window is appending to the whole history. */
  lemma LastAppend(h: seq<bool>, x: bool, n: nat)
    requires n > 0
    ensures Last(Last(h, n) + [x], n) == Last(h + [x], n)
  {
  }

  /** A failure never takes a tripped history below the threshold; a success never lifts an
  untripped one to it. */
  lemma TrippedAppend(threshold: nat, h: seq<bool>, ok: bool)
    requires threshold > 0
    ensures !ok && Tripped(threshold, h) ==> Tripped(threshold, h + [ok])
    ensures ok && !Tripped(threshold, h) ==> !Tripped(threshold, h + [ok])
  {
    var n := 2 * threshold;
    var w, w1 := Last(h, n), Last(h + [ok], n);
    if |h| >= n {
      assert w == [w[0]] + w[1..] && w1 == w[1..] + [ok];
      FailsConcat([w[0]], w[1..]);
      FailsConcat(w[1..], [ok]);
      FailsBound([w[0]]);
    } else {
      assert w1 == w + [ok];
      FailsConcat(w, [ok]);
    }
  }

  /** The kept window and the open entry of `t` mirror the history `h`. */
  predicate Tracks(b: Breaker, t: string, h: seq<bool>) {
    Outcomes(b, t) == Last(h, 2 * b.threshold) && (IsDown(b, t) <==> Tripped(b.threshold, h))
  }

  lemma RecordTracks(b: Breaker, t: string, ok: bool, now: Time, h: seq<bool>)
    requires b.threshold > 0 && Tracks(b, t, h)
    ensures Tracks(AfterRecord(b, t, ok, now), t, if ok && Tripped(b.threshold, h) then [] else h + [ok])
  {
    hide Fails;
    LastAppend(h, ok, 2 * b.threshold);
    TrippedAppend(b.threshold, h, ok);
    EmptyNotTripped(b.threshold);
  }

  lemma EmptyNotTripped(threshold: nat)
    requires threshold > 0
    ensures !Tripped(threshold, []) && Last([], 2 * threshold) == []
  {
  }

  lemma OthersTracked(b: Breaker, c: Call, t: string, h: seq<bool>)
    requires Tracks(b, t, h) && (c.OpenAt? || c.target != t)
    ensures Tracks(Next(b, c), t, h)
  {
    hide Fails, Last;
  }

  /** Breaker invariant over every call sequence: the kept window is exactly the last
  2*threshold outcomes since the last close, and a target has an open entry if and only
  if that window holds at least threshold failures. */
  lemma {:induction false} WindowAndOpenEntry(threshold: int, cooldown: int, calls: seq<Call>, t: string)
    ensures var b := Run(New(threshold, cooldown), calls);
            var h := SinceClose(b.threshold, calls, t);
            && Outcomes(b, t) == Last(h, 2 * b.threshold)
            && (IsDown(b, t) <==> Tripped(b.threshold, h))
  {
    SettingsFixed(New(threshold, cooldown), calls);
    if calls == [] {
      EmptyNotTripped(New(threshold, cooldown).threshold);
    } else {
      var before, c := calls[..|calls| - 1], calls[|calls| - 1];
      SettingsFixed(New(threshold, cooldown), before);
      WindowAndOpenEntry(threshold, cooldown, before, t);
      var b := Run(New(threshold, cooldown), before);
      var h := SinceClose(b.threshold, before, t);
      if c.RecordAt? && c.target == t {
        RecordTracks(b, t, c.ok, c.now, h);
      } else {
        OthersTracked(b, c, t, h);
      }
    }
  }

  // ---- when a circuit refuses -----------------------------------------------------

  /** Reference: the latest time at which a failure found the history tripped or a caller was
  let through as a probe, since the last close; None while the circuit is closed. It is
  read off the calls, their histories and their own times alone. */
  function Reserved(threshold: nat, cooldown: int, calls: seq<Call>, t: string): Option<Time> {
    if calls == [] then None else
      var before, c := Reserved(threshold, cooldown, calls[..|calls| - 1], t), calls[|calls| - 1];
      if c.target != t then before
      else match c
        case OpenAt(_, now, later) => if before.Some? && now >= before.value + cooldown then Some(later) else before
        case RecordAt(_, ok, now) =>
          if ok && Tripped(threshold, SinceClose(threshold, calls[..|calls| - 1], t)) then None
          else if !ok && Tripped(threshold, SinceClose(threshold, calls, t)) then Some(now)
          else before
  }

  /** The open entry of a target is its latest reservation and one cooldown. */
  predicate Keeps(b: Breaker, t: string, r: Option<Time>) {
    (IsDown(b, t) <==> r.Some?) && (r.Some? ==> b.openUntil[t] == r.value + b.cooldown)
  }

  lemma OpenKeeps(b: Breaker, t: string, target: string, now: Time, later: Time, r: Option<Time>)
    requires Keeps(b, t, r)
    ensures Keeps(AfterOpen(b, target, now, later), t,
                  if target == t && r.Some? && now >= r.value + b.cooldown then Some(later) else r)
  {
  }

  lemma RecordKeeps(b: Breaker, t: string, target: string, ok: bool, now: Time, h: seq<bool>, r: Option<Time>)
    requires b.threshold > 0 && Tracks(b, t, h) && Keeps(b, t, r)
    ensures var b1 := AfterRecord(b, target, ok, now);
            Keeps(b1, t,
                  if target != t then r
                  else if ok && Tripped(b.threshold, h) then None
                  else if !ok && Tripped(b.threshold, h + [ok]) then Some(now)
                  else r)
  {
    hide Fails;
    LastAppend(h, ok, 2 * b.threshold);
    TrippedAppend(b.threshold, h, ok);
  }

  /** Over every call sequence a target is refused exactly while it is down and one cooldown
  has not passed since its latest reservation; from then on the next caller is let through,
  and that caller's own admission is the new reservation. */
  lemma {:induction false} RefusedExactly(threshold: int, cooldown: int, calls: seq<Call>, t: string, now: Time)
    ensures var b := Run(New(threshold, cooldown), calls);
            var r := Reserved(b.threshold, cooldown, calls, t);
            && Keeps(b, t, r)
            && (Refused(b, t, now) <==> r.Some? && now < r.value + cooldown)
            && (Probes(b, t, now) <==> r.Some? && now >= r.value + cooldown)
  {
    SettingsFixed(New(threshold, cooldown), calls);
    if calls != [] {
      hide AfterOpen, AfterRecord, Tripped, Fails, Keeps;
      var before, c := calls[..|calls| - 1], calls[|calls| - 1];
      SettingsFixed(New(threshold, cooldown), before);
      RefusedExactly(threshold, cooldown, before, t, now);
      WindowAndOpenEntry(threshold, cooldown, before, t);
      var b := Run(New(threshold, cooldown), before);
      var h, r := SinceClose(b.threshold, before, t), Reserved(b.threshold, cooldown, before, t);
      match c {
        case OpenAt(target, at, later) => OpenKeeps(b, t, target, at, later, r);
        case RecordAt(target, ok, at) => RecordKeeps(b, t, target, ok, at, h, r);
      }
      KeepsDecides(Run(New(threshold, cooldown), calls), t, Reserved(b.threshold, cooldown, calls, t), now);
    }
  }

  lemma KeepsDecides(b: Breaker, t: string, r: Option<Time>, now: Time)
    requires Keeps(b, t, r)
    ensures Refused(b, t, now) <==> r.Some? && now < r.value + b.cooldown
    ensures Probes(b, t, now) <==> r.Some? && now >= r.value + b.cooldown
  {
  }

  /** So a circuit that is down half-opens: whatever happened before, a caller that comes one
  cooldown after the latest reservation is let through, and its success closes the circuit. */
  lemma HalfOpens(threshold: int, cooldown: int, calls: seq<Call>, t: string, now: Time, later: Time, at: Time)
    requires var r := Reserved(New(threshold, cooldown).threshold, cooldown, calls, t); r.Some? && now >= r.value + cooldown
    ensures var b := Run(New(threshold, cooldown), calls);
            && IsDown(b, t) && !Refused(b, t, now) && IsDown(AfterOpen(b, t, now, later), t)
            && !IsDown(AfterRecord(AfterOpen(b, t, now, later), t, true, at), t)
  {
    hide Run, Reserved;
    SettingsFixed(New(threshold, cooldown), calls);
    RefusedExactly(threshold, cooldown, calls, t, now);
  }

  // ---- probe spacing -----------------------------------------------------------

  function Start(c: Call): Time { c.now }

  function End(c: Call): Time {
    match c
    case OpenAt(_, _, later) => later
    case RecordAt(_, _, now) => now
  }

  /** One mutex and one monotone clock: calls neither overlap nor run backwards. */
  predicate MonotoneClock(calls: seq<Call>) {
    && (forall k :: 0 <= k < |calls| ==> Start(calls[k]) <= End(calls[k]))
    && (forall k, l :: 0 <= k < l < |calls| ==> End(calls[k]) <= Start(calls[l]))
  }

  predicate ProbeAt(b: Breaker, calls: seq<Call>, k: nat, t: string)
    requires k < |calls|
  {
    calls[k].OpenAt? && calls[k].target == t && Probes(Run(b, calls[..k]), t, calls[k].now)
  }

  predicate CloseAt(b: Breaker, calls: seq<Call>, k: nat, t: string)
    requires k < |calls|
  {
    calls[k].RecordAt? && calls[k].target == t && calls[k].ok && IsDown(Run(b, calls[..k]), t)
  }

  /** A call that does not close the circuit never moves its half-open time back. */
  lemma ReservationStep(b: Breaker, c: Call, t: string, bound: Time)
    requires IsDown(b, t) && b.openUntil[t] >= bound + b.cooldown
    requires bound <= Start(c) <= End(c)
    requires !(c.RecordAt? && c.target == t && c.ok)
    ensures IsDown(Next(b, c), t) && Next(b, c).openUntil[t] >= bound + b.cooldown && Next(b, c).cooldown == b.cooldown
  {
    hide Fails, Last;
  }

  lemma {:induction false} ReservationHolds(b: Breaker, calls: seq<Call>, i: nat, k: nat, t: string)
    requires MonotoneClock(calls) && i < k <= |calls| && ProbeAt(b, calls, i, t)
    requires forall m {:trigger CloseAt(b, calls, m, t)} :: i < m < k ==> !CloseAt(b, calls, m, t)
    ensures var s := Run(b, calls[..k]);
            s.cooldown == b.cooldown && IsDown(s, t) && s.openUntil[t] >= End(calls[i]) + b.cooldown
  {
    hide AfterRecord;
    assert calls[..k][..k - 1] == calls[..k - 1] && calls[..k][k - 1] == calls[k - 1];
    SettingsFixed(b, calls[..k - 1]);
    if k > i + 1 {
      ReservationHolds(b, calls, i, k - 1, t);
      assert !CloseAt(b, calls, k - 1, t);
      assert End(calls[i]) <= Start(calls[k - 1]);
      ReservationStep(Run(b, calls[..k - 1]), calls[k - 1], t, End(calls[i]));
    }
  }

  /** Two probe admissions of a target with no close between them are at least one
  cooldown apart, in any call sequence of any number of workers. */
  lemma ProbesOneCooldownApart(b: Breaker, calls: seq<Call>, i: nat, j: nat, t: string)
    requires MonotoneClock(calls) && i < j < |calls|
    requires ProbeAt(b, calls, i, t) && ProbeAt(b, calls, j, t)
    requires forall m {:trigger CloseAt(b, calls, m, t)} :: i < m < j ==> !CloseAt(b, calls, m, t)
    ensures Start(calls[j]) - End(calls[i]) >= b.cooldown
  {
    hide Run, AfterRecord;
    ReservationHolds(b, calls, i, j, t);
  }

  lemma {:induction false} SettingsFixed(b: Breaker, calls: seq<Call>)
    ensures Run(b, calls).cooldown == b.cooldown && Run(b, calls).threshold == b.threshold
  {
    if calls != [] { SettingsFixed(b, calls[..|calls| - 1]); }
  }
}
