/** Manifest names and the choice of the newest manifest that still exists. */
module Manifests {
  import opened Content
  import opened Order

  // ---- names -----------------------------------------------------------------------

  /** A UTC instant in civil fields. */
  datatype Stamp = Stamp(year: int, month: nat, day: nat, hour: nat, minute: nat, second: nat, nanos: nat)

  predicate LeapYear(y: int) {
    y % 4 == 0 && (y % 100 != 0 || y % 400 == 0)
  }

  function DaysIn(month: nat, year: int): nat {
    if month == 2 then (if LeapYear(year) then 29 else 28)
    else if month == 4 || month == 6 || month == 9 || month == 11 then 30
    else 31
  }

  predicate IsInstant(t: Stamp) {
    && 1 <= t.month <= 12 && 1 <= t.day <= DaysIn(t.month, t.year)
    && t.hour < 24 && t.minute < 60 && t.second < 60 && t.nanos < Pow10(9)
  }

  function Pow10(w: nat): (p: nat)
    ensures p >= 1
  {
    if w == 0 then 1 else 10 * Pow10(w - 1)
  }

  function Digit(d: nat): char
    requires d < 10
  {
    '0' + d as char
  }

  /** The last `w` decimal digits of `n`. */
  function Digits(n: nat, w: nat): (s: string)
    ensures |s| == w
  {
    if w == 0 then "" else Digits(n / 10, w - 1) + [Digit(n % 10)]
  }

  function Width(n: nat): (w: nat)
    ensures w >= 1
  {
    if n < 10 then 1 else 1 + Width(n / 10)
  }

  /** A year is padded to four digits, longer when it needs to be, signed when negative. */
  function FormatYear(y: int): string {
    var n := if y < 0 then -y else y;
    (if y < 0 then "-" else "") + Digits(n, if Width(n) < 4 then 4 else Width(n))
  }

  // The layout 2006-01-02T150405.000000000Z and the suffix, from one field on.
  function FromNanos(t: Stamp): string { Digits(t.nanos, 9) + "Z.jsonl" }
  function FromSecond(t: Stamp): string { Digits(t.second, 2) + "." + FromNanos(t) }
  function FromMinute(t: Stamp): string { Digits(t.minute, 2) + "" + FromSecond(t) }
  function FromHour(t: Stamp): string { Digits(t.hour, 2) + "" + FromMinute(t) }
  function FromDay(t: Stamp): string { Digits(t.day, 2) + "T" + FromHour(t) }
  function FromMonth(t: Stamp): string { Digits(t.month, 2) + "-" + FromDay(t) }

  function FormatManifestName(t: Stamp): string {
    FormatYear(t.year) + "-" + FromMonth(t)
  }

  predicate AllDigits(s: string) {
    forall k :: 0 <= k < |s| ==> '0' <= s[k] <= '9'
  }

  function Value(s: string): nat
    requires AllDigits(s)
  {
    if s == "" then 0 else 10 * Value(s[..|s| - 1]) + (s[|s| - 1] as nat - '0' as nat)
  }

  predicate Field(s: string, lo: nat, hi: nat) {
    AllDigits(s) && lo <= Value(s) < hi
  }

  /** The parser's fraction: a period or comma, then nine characters read as an integer that
  may carry a sign, as long as it is not negative. */
  predicate FractionOK(s: string)
    requires |s| == 10
  {
    (s[0] == '.' || s[0] == ',') &&
    (AllDigits(s[1..]) ||
     (s[1] == '+' && AllDigits(s[2..])) ||
     (s[1] == '-' && AllDigits(s[2..]) && Value(s[2..]) == 0))
  }

  /** What `time.Parse` accepts for the layout: every element has a fixed width. */
  predicate ParsesAsStamp(ts: string) {
    && |ts| == 28
    && AllDigits(ts[0..4]) && ts[4] == '-' && Field(ts[5..7], 1, 13) && ts[7] == '-'
    && Field(ts[8..10], 1, DaysIn(Value(ts[5..7]), Value(ts[0..4])) + 1) && ts[10] == 'T'
    && Field(ts[11..13], 0, 24) && Field(ts[13..15], 0, 60) && Field(ts[15..17], 0, 60)
    && FractionOK(ts[17..27]) && ts[27] == 'Z'
  }

  predicate IsTimestampedManifest(base: string) {
    |base| >= 6 && base[|base| - 6..] == ".jsonl" && ParsesAsStamp(base[..|base| - 6])
  }

  lemma {:induction false} DigitsAreDigits(n: nat, w: nat)
    ensures AllDigits(Digits(n, w))
  {
    if w > 0 { DigitsAreDigits(n / 10, w - 1); }
  }

  lemma {:induction false} ValueOfDigits(n: nat, w: nat)
    requires n < Pow10(w)
    ensures AllDigits(Digits(n, w)) && Value(Digits(n, w)) == n
  {
    DigitsAreDigits(n, w);
    if w > 0 {
      var s := Digits(n, w);
      assert s[..|s| - 1] == Digits(n / 10, w - 1);
      ValueOfDigits(n / 10, w - 1);
    }
  }

  /** Comparing two strings whose first parts have equal length. */
  lemma {:induction false} LessConcat(a: string, b: string, s: string, t: string)
    requires |a| == |b|
    ensures Less(a + s, b + t) <==> Less(a, b) || (a == b && Less(s, t))
  {
    if a == [] {
      assert a + s == s && b + t == t;
    } else {
      assert (a + s)[1..] == a[1..] + s && (b + t)[1..] == b[1..] + t;
      LessConcat(a[1..], b[1..], s, t);
      assert a == [a[0]] + a[1..] && b == [b[0]] + b[1..];
    }
  }

  /** Fixed-width digits order as the numbers do. */
  lemma {:induction false} DigitsOrder(m: nat, n: nat, w: nat)
    requires m < Pow10(w) && n < Pow10(w)
    ensures Less(Digits(m, w), Digits(n, w)) <==> m < n
    ensures Digits(m, w) == Digits(n, w) <==> m == n
  {
    if w > 0 {
      DigitsOrder(m / 10, n / 10, w - 1);
      var a, b := Digits(m / 10, w - 1), Digits(n / 10, w - 1);
      var x, y := [Digit(m % 10)], [Digit(n % 10)];
      LessConcat(a, b, x, y);
      assert x[1..] == [] && y[1..] == [];
      assert Less(x, y) <==> m % 10 < n % 10;
      assert (a + x)[|a|] == x[0] && (b + y)[|b|] == y[0];
      assert a + x == b + y ==> a == (a + x)[..|a|] && b == (b + y)[..|b|];
    }
  }

  /** Chronological order on civil fields. */
  predicate Earlier(t: Stamp, u: Stamp) {
    t.year < u.year || (t.year == u.year &&
    (t.month < u.month || (t.month == u.month &&
    (t.day < u.day || (t.day == u.day &&
    (t.hour < u.hour || (t.hour == u.hour &&
    (t.minute < u.minute || (t.minute == u.minute &&
    (t.second < u.second || (t.second == u.second && t.nanos < u.nanos)))))))))))
  }

  lemma {:induction false} WidthBound(n: nat, w: nat)
    requires w > 0
    ensures Width(n) <= w <==> n < Pow10(w)
  {
    if w > 1 && n >= 10 { WidthBound(n / 10, w - 1); }
  }

  /** A four-digit year is formatted in four digits, so every field has a fixed width. */
  lemma FourDigitYear(y: int)
    requires 0 <= y <= 9999
    ensures FormatYear(y) == Digits(y, 4)
  {
    hide Digits;
    WidthBound(y, 4);
    assert Pow10(4) == 10000;
    assert "" + Digits(y, 4) == Digits(y, 4);
  }

  /** One field decides the order unless it is equal. */
  lemma FieldOrder(m: nat, n: nat, w: nat, sep: string, s: string, t: string)
    requires m < Pow10(w) && n < Pow10(w)
    ensures Less(Digits(m, w) + sep + s, Digits(n, w) + sep + t) <==> m < n || (m == n && Less(s, t))
  {
    hide Digits, Less, Pow10;
    DigitsOrder(m, n, w);
    assert Digits(m, w) + sep + s == Digits(m, w) + (sep + s);
    assert Digits(n, w) + sep + t == Digits(n, w) + (sep + t);
    LessConcat(Digits(m, w), Digits(n, w), sep + s, sep + t);
    LessConcat(sep, sep, s, t);
    LessIrreflexive(sep);
  }

  /** Names of four-digit years order lexically as the instants do, so a reverse string
  sort is newest first. */
  lemma NamesOrderAsTimes(t: Stamp, u: Stamp)
    requires IsInstant(t) && IsInstant(u) && 0 <= t.year <= 9999 && 0 <= u.year <= 9999
    ensures Less(FormatManifestName(t), FormatManifestName(u)) <==> Earlier(t, u)
  {
    hide Less, Digits, FormatYear;
    assert Pow10(2) == 100 && Pow10(4) == 10000;
    FourDigitYear(t.year);
    FourDigitYear(u.year);
    FieldOrder(t.year, u.year, 4, "-", FromMonth(t), FromMonth(u));
    FieldOrder(t.month, u.month, 2, "-", FromDay(t), FromDay(u));
    FieldOrder(t.day, u.day, 2, "T", FromHour(t), FromHour(u));
    FieldOrder(t.hour, u.hour, 2, "", FromMinute(t), FromMinute(u));
    FieldOrder(t.minute, u.minute, 2, "", FromSecond(t), FromSecond(u));
    FieldOrder(t.second, u.second, 2, ".", FromNanos(t), FromNanos(u));
    DigitsOrder(t.nanos, u.nanos, 9);
    LessConcat(Digits(t.nanos, 9), Digits(u.nanos, 9), "Z.jsonl", "Z.jsonl");
    LessIrreflexive("Z.jsonl");
  }

  /** The write side is accepted by the read side for exactly the four-digit years. */
  lemma FormattedNamesParse(t: Stamp)
    requires IsInstant(t)
    ensures IsTimestampedManifest(FormatManifestName(t)) <==> 0 <= t.year <= 9999
  {
    var name := FormatManifestName(t);
    hide Digits, Less;
    assert Pow10(2) == 100 && Pow10(4) == 10000;
    var y := FormatYear(t.year);
    assert |name| == |y| + 30;
    if 0 <= t.year <= 9999 {
      FourDigitYear(t.year);
      FieldsParse(t, name[..28]);
      assert name[28..] == ".jsonl";
    } else {
      var n := if t.year < 0 then -t.year else t.year;
      WidthBound(n, 4);
      assert |y| > 4;
    }
  }

  lemma {:induction false} DigitsOfValue(s: string)
    requires AllDigits(s)
    ensures Value(s) < Pow10(|s|) && Digits(Value(s), |s|) == s
  {
    if s != "" {
      var init, d := s[..|s| - 1], s[|s| - 1] as nat - '0' as nat;
      DigitsOfValue(init);
      assert Value(s) / 10 == Value(init) && Value(s) % 10 == d;
      assert s == init + [Digit(d)];
    }
  }

  /** Cutting a name at a field and the separator after it. */
  lemma Cut(base: string, i: nat, w: nat, sep: string)
    requires i + w + |sep| <= |base| && base[i + w..i + w + |sep|] == sep
    ensures base[i..] == base[i..i + w] + sep + base[i + w + |sep|..]
  {
  }

  /** The fraction as the service writes it: a period and nine digits. */
  predicate PlainFraction(base: string) {
    |base| == 34 && base[17] == '.' && AllDigits(base[18..27])
  }

  /** What acceptance says of the fields of a name. */
  lemma AcceptedFields(base: string)
    requires IsTimestampedManifest(base)
    ensures |base| == 34 && base[4] == base[7] == '-' && base[10] == 'T' && base[27..] == "Z.jsonl"
    ensures AllDigits(base[0..4]) && Field(base[5..7], 1, 13)
    ensures Field(base[8..10], 1, DaysIn(Value(base[5..7]), Value(base[0..4])) + 1)
    ensures Field(base[11..13], 0, 24) && Field(base[13..15], 0, 60) && Field(base[15..17], 0, 60)
  {
    hide DaysIn, Value, AllDigits, Field, FractionOK;
    var ts := base[..|base| - 6];
    assert |base| == 34;
    assert base[27..] == [ts[27]] + base[28..];
    assert ts[0..4] == base[0..4] && ts[5..7] == base[5..7] && ts[8..10] == base[8..10];
    assert ts[11..13] == base[11..13] && ts[13..15] == base[13..15] && ts[15..17] == base[15..17];
  }

  /** A name is the concatenation of its fields and separators. */
  lemma NameIsItsFields(base: string)
    requires |base| == 34 && base[4] == base[7] == '-' && base[10] == 'T' && base[17] == '.' && base[27..] == "Z.jsonl"
    ensures base == base[0..4] + "-" + (base[5..7] + "-" + (base[8..10] + "T" + (base[11..13] + "" + (base[13..15] + "" +
                    (base[15..17] + "." + (base[18..27] + "Z.jsonl"))))))
  {
    assert base[18..] == base[18..27] + base[27..];
    Cut(base, 15, 2, ".");
    Cut(base, 13, 2, "");
    Cut(base, 11, 2, "");
    Cut(base, 8, 2, "T");
    Cut(base, 5, 2, "-");
    Cut(base, 0, 4, "-");
    assert base[0..] == base;
  }

  /** The read side accepts nothing but names of the write side: an accepted name with a plain
  fraction is the name of an instant of a four-digit year. */
  lemma AcceptedNamesAreFormatted(base: string) returns (t: Stamp)
    requires IsTimestampedManifest(base) && PlainFraction(base)
    ensures IsInstant(t) && 0 <= t.year <= 9999 && FormatManifestName(t) == base
  {
    hide Digits, DaysIn, Value, AllDigits, Pow10, IsTimestampedManifest, FormatYear;
    AcceptedFields(base);
    NameIsItsFields(base);
    t := Stamp(Value(base[0..4]), Value(base[5..7]), Value(base[8..10]), Value(base[11..13]), Value(base[13..15]), Value(base[15..17]),
               Value(base[18..27]));
    DigitsOfValue(base[0..4]);
    DigitsOfValue(base[5..7]);
    DigitsOfValue(base[8..10]);
    DigitsOfValue(base[11..13]);
    DigitsOfValue(base[13..15]);
    DigitsOfValue(base[15..17]);
    DigitsOfValue(base[18..27]);
    TenThousand();
    FourDigitYear(t.year);
  }

  lemma TenThousand()
    ensures Pow10(4) == 10000
  {
    assert Pow10(2) == 100;
  }

  /** What it accepts besides are fractions the service never writes: a comma, or a sign. */
  lemma AcceptedElseOddFraction(base: string)
    requires IsTimestampedManifest(base) && !PlainFraction(base)
    ensures |base| == 34 && (base[17] == ',' || base[18] == '+' || base[18] == '-')
  {
    hide Value, AllDigits, DaysIn;
    var ts := base[..28];
    assert |base| - 6 == 28;
    var f := ts[17..27];
    assert f[0] == base[17] && f[1] == base[18] && f[1..] == base[18..27];
  }

  lemma FieldsParse(t: Stamp, ts: string)
    requires IsInstant(t) && 0 <= t.year <= 9999
    requires ts == (Digits(t.year, 4) + "-" + FromMonth(t))[..28]
    ensures ParsesAsStamp(ts)
  {
    hide Digits, Less, Value;
    assert Pow10(2) == 100 && Pow10(4) == 10000;
    var s := Digits(t.year, 4) + "-" + FromMonth(t);
    ValueOfDigits(t.year, 4);
    ValueOfDigits(t.month, 2);
    ValueOfDigits(t.day, 2);
    ValueOfDigits(t.hour, 2);
    ValueOfDigits(t.minute, 2);
    ValueOfDigits(t.second, 2);
    ValueOfDigits(t.nanos, 9);
    assert s[5..] == FromMonth(t);
    assert s[8..] == FromMonth(t)[3..] == FromDay(t);
    assert s[11..] == FromDay(t)[3..] == FromHour(t);
    assert s[13..] == FromHour(t)[2..] == FromMinute(t);
    assert s[15..] == FromMinute(t)[2..] == FromSecond(t);
    assert s[18..] == FromSecond(t)[3..] == FromNanos(t);
    assert ts[0..4] == Digits(t.year, 4);
    assert ts[5..7] == FromMonth(t)[..2] == Digits(t.month, 2) && ts[7] == FromMonth(t)[2];
    assert ts[8..10] == FromDay(t)[..2] == Digits(t.day, 2) && ts[10] == FromDay(t)[2];
    assert ts[11..13] == FromHour(t)[..2] == Digits(t.hour, 2);
    assert ts[13..15] == FromMinute(t)[..2] == Digits(t.minute, 2);
    assert ts[15..17] == FromSecond(t)[..2] == Digits(t.second, 2) && ts[17] == FromSecond(t)[2];
    assert ts[17..27][1..] == FromNanos(t)[..9] == Digits(t.nanos, 9) && ts[27] == FromNanos(t)[9];
  }

  // ---- selection -------------------------------------------------------------------

  datatype OpenResult = Opened | Gone | Denied

  datatype Selected = Found(name: string) | OpenFailed(name: string) | ListFailed | NoManifest

  function Valid(names: seq<string>): seq<string> {
    if names == [] then []
    else (if IsTimestampedManifest(names[0]) then [names[0]] else []) + Valid(names[1..])
  }

  /** The names strictly after `after`, in listing order; "" lists them all. */
  function ListFrom(names: seq<string>, after: string): seq<string> {
    if names == [] then []
    else (if after == "" || Less(after, names[0]) then [names[0]] else []) + ListFrom(names[1..], after)
  }

  function Reverse(s: seq<string>): (r: seq<string>)
    ensures |r| == |s| && forall k :: 0 <= k < |s| ==> r[k] == s[|s| - 1 - k]
  {
    if s == [] then [] else Reverse(s[1..]) + [s[0]]
  }

  /** The valid names, newest first. */
  function LatestFirst(names: seq<string>): seq<string> {
    Reverse(Sort(Valid(names)))
  }

  function FirstSurviving(names: seq<string>, open: string -> OpenResult): Selected {
    if names == [] then NoManifest
    else match open(names[0])
      case Opened => Found(names[0])
      case Denied => OpenFailed(names[0])
      case Gone => FirstSurviving(names[1..], open)
  }

  /** Reference: no pointer at all, just every valid listed name tried newest first. */
  function FullScan(list: Option<seq<string>>, open: string -> OpenResult): Selected {
    if list.None? then ListFailed else FirstSurviving(LatestFirst(list.value), open)
  }

  lemma {:induction false} ValidMembers(names: seq<string>, x: string)
    ensures x in Valid(names) <==> x in names && IsTimestampedManifest(x)
  {
    hide IsTimestampedManifest;
    if names != [] {
      ValidMembers(names[1..], x);
      assert x in names <==> x == names[0] || x in names[1..];
    }
  }

  lemma {:induction false} ListFromMembers(names: seq<string>, after: string, x: string)
    ensures x in ListFrom(names, after) <==> x in names && (after == "" || Less(after, x))
  {
    hide Less;
    if names != [] {
      ListFromMembers(names[1..], after, x);
      assert x in names <==> x == names[0] || x in names[1..];
    }
  }

  lemma {:induction false} ListAll(names: seq<string>)
    ensures ListFrom(names, "") == names
  {
    if names != [] { ListAll(names[1..]); }
  }

  predicate NewestIn(names: seq<string>, x: string) {
    x in names && IsTimestampedManifest(x) && forall y :: y in names && IsTimestampedManifest(y) ==> LessEq(y, x)
  }

  /** The newest valid name is the first one a full scan tries. */
  lemma NewestIsFirst(names: seq<string>, x: string)
    requires NewestIn(names, x)
    ensures LatestFirst(names) != [] && LatestFirst(names)[0] == x
  {
    hide Less, IsTimestampedManifest, Sort;
    var v := Valid(names);
    var sorted := Sort(v);
    ValidMembers(names, x);
    assert x in multiset(v);
    assert x in multiset(sorted);
    var top := sorted[|sorted| - 1];
    assert top in multiset(sorted);
    assert top in multiset(v);
    ValidMembers(names, top);
    var k :| 0 <= k < |sorted| && sorted[k] == x;
    assert LessEq(x, top);
    if x != top { LessTransitive(x, top, x); LessIrreflexive(x); }
  }

  /** The one case where a pointer changes the outcome: it names an unlisted manifest that
  is newer than every listed one, and opening it does not report it gone. */
  predicate PointerDecides(pointer: Option<string>, list: Option<seq<string>>, open: string -> OpenResult) {
    && pointer.Some? && IsTimestampedManifest(pointer.value) && list.Some? && pointer.value !in list.value
    && (forall y :: y in list.value && IsTimestampedManifest(y) ==> Less(y, pointer.value))
    && !open(pointer.value).Gone?
  }

  lemma {:induction false} SurvivorIsListed(names: seq<string>, open: string -> OpenResult)
    ensures var r := FirstSurviving(names, open);
            (r.Found? || r.OpenFailed?) ==> r.name in names
  {
    if names != [] { SurvivorIsListed(names[1..], open); }
  }

  lemma ScanNamesListed(names: seq<string>, open: string -> OpenResult)
    ensures var r := FullScan(Some(names), open);
            (r.Found? || r.OpenFailed?) ==> r.name in names
  {
    hide IsTimestampedManifest, Sort;
    var r := FullScan(Some(names), open);
    SurvivorIsListed(LatestFirst(names), open);
    if r.Found? || r.OpenFailed? {
      var v := Valid(names);
      var k :| 0 <= k < |LatestFirst(names)| && LatestFirst(names)[k] == r.name;
      assert r.name in Sort(v);
      assert r.name in multiset(Sort(v));
      assert r.name in multiset(v);
      ValidMembers(names, r.name);
    }
  }

  /** The pointer fast path refines the full scan: for any pointer and any listing the result
  is the one a plain scan gives, if and only if the pointer does not decide. Where only
  listed names open, it never does. */
  method OpenLatestManifest(pointer: Option<string>, list: Option<seq<string>>, open: string -> OpenResult) returns (r: Selected)
    ensures r == FullScan(list, open) <==> !PointerDecides(pointer, list, open)
    ensures (forall n :: list.Some? && n !in list.value ==> open(n).Gone?) ==> r == FullScan(list, open)
  {
    hide Less, IsTimestampedManifest, LatestFirst;
    if pointer.Some? && IsTimestampedManifest(pointer.value) {
      if list.None? {
        return ListFailed;
      }
      var names := ListFrom(list.value, pointer.value);
      var newest := NewestOf(pointer.value, names);
      PointerCandidate(pointer.value, list.value, newest);
      ScanNamesListed(list.value, open);
      match open(newest)
      case Opened =>
        return Found(newest);
      case Denied =>
        return OpenFailed(newest);
      case Gone =>
    }
    if list.None? {
      return ListFailed;
    }
    ListAll(list.value);
    var rest := LatestFirst(ListFrom(list.value, ""));
    for k := 0 to |rest|
      invariant FirstSurviving(rest, open) == FirstSurviving(rest[k..], open)
    {
      match open(rest[k])
      case Opened =>
        return Found(rest[k]);
      case Denied =>
        return OpenFailed(rest[k]);
      case Gone =>
        assert rest[k..][1..] == rest[k + 1..];
    }
    assert rest[|rest|..] == [];
    return NoManifest;
  }

  method NewestOf(pointer: string, names: seq<string>) returns (newest: string)
    ensures newest == pointer || (newest in names && IsTimestampedManifest(newest) && Less(pointer, newest))
    ensures forall y :: y in names && IsTimestampedManifest(y) ==> LessEq(y, newest) || y == pointer || !Less(pointer, y)
  {
    hide Less, IsTimestampedManifest;
    newest := pointer;
    for k := 0 to |names|
      invariant newest == pointer || (newest in names && IsTimestampedManifest(newest) && Less(pointer, newest))
      invariant forall j :: 0 <= j < k && IsTimestampedManifest(names[j]) ==> LessEq(names[j], newest)
    {
      var n := names[k];
      LessTotal(n, newest);
      if IsTimestampedManifest(n) && Less(newest, n) {
        if newest != pointer { LessTransitive(pointer, newest, n); }
        forall j | 0 <= j < k && IsTimestampedManifest(names[j]) ensures LessEq(names[j], n) {
          if names[j] != newest { LessTransitive(names[j], newest, n); }
        }
        newest := n;
      }
    }
  }

  /** The fast path's candidate is the newest listed manifest, or the pointer itself when
  nothing listed is as new. */
  lemma PointerCandidate(pointer: string, names: seq<string>, newest: string)
    requires IsTimestampedManifest(pointer)
    requires var later := ListFrom(names, pointer);
             && (newest == pointer || (newest in later && IsTimestampedManifest(newest) && Less(pointer, newest)))
             && (forall y :: y in later && IsTimestampedManifest(y) ==> LessEq(y, newest) || y == pointer || !Less(pointer, y))
    ensures NewestIn(names, newest) || (newest == pointer && pointer !in names &&
            forall y :: y in names && IsTimestampedManifest(y) ==> Less(y, pointer))
    ensures NewestIn(names, newest) ==> LatestFirst(names) != [] && LatestFirst(names)[0] == newest
    ensures NewestIn(names, newest) ==> (newest == pointer ==> pointer in names) && (newest != pointer ==> newest in names && !Less(newest, pointer))
  {
    hide Less, IsTimestampedManifest, LatestFirst, ListFrom;
    ListFromMembers(names, pointer, newest);
    forall y | y in names && IsTimestampedManifest(y)
      ensures LessEq(y, newest)
    {
      ListFromMembers(names, pointer, y);
      LessTotal(y, pointer);
      if y != pointer && Less(y, pointer) && newest != pointer { LessTransitive(y, pointer, newest); }
    }
    if NewestIn(names, newest) { NewestIsFirst(names, newest); }
    if Less(pointer, newest) && Less(newest, pointer) { LessTransitive(pointer, newest, pointer); LessIrreflexive(pointer); }
  }
}
