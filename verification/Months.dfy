/** The month arithmetic behind the partitions of api_logs: internal/storage/logs.go.

    A UTC instant is its calendar date and the nanoseconds since midnight, as time.Time shows it. A
    duration is never added to one here; AddDate is modelled with its normalisation. */
module Months {
  import opened Decimals
  import opened Sorting

  const DAY := 86_400_000_000_000

  datatype Time = Time(year: int, month: int, day: int, nanos: int)

  /** What time.Time.IsZero recognises. */
  const ZERO := Time(1, 1, 1, 0)

  /** The number of January of year 1. */
  const ZERO_MONTH := 12

  predicate Leap(year: int) {
    year % 4 == 0 && (year % 100 != 0 || year % 400 == 0)
  }

  function DaysIn(year: int, month: int): int {
    if month == 2 then (if Leap(year) then 29 else 28) else if month in {4, 6, 9, 11} then 30 else 31
  }

  /** The days from a fixed one to the first of a month, counted in years that begin with March. */
  function DayNumber(year: int, month: int): int {
    var y, m := if month <= 2 then year - 1 else year, if month <= 2 then month + 9 else month - 3;
    365 * y + y / 4 - y / 100 + y / 400 + (153 * m + 2) / 5
  }

  /** A year divisible by q, and no other, begins a new period of q years. */
  lemma PeriodBegins(y: int, q: int)
    requires q == 4 || q == 100 || q == 400
    ensures y / q - (y - 1) / q == if y % q == 0 then 1 else 0
  {
  }

  lemma DivisibleBy(y: int)
    ensures y % 400 == 0 ==> y % 100 == 0
    ensures y % 100 == 0 ==> y % 4 == 0
  {
  }

  lemma FebruaryIsGregorian(year: int)
    ensures DayNumber(year, 3) - DayNumber(year, 2) == DaysIn(year, 2)
  {
    PeriodBegins(year, 4);
    PeriodBegins(year, 100);
    PeriodBegins(year, 400);
    DivisibleBy(year);
  }

  lemma NextFirst(year: int, month: int)
    requires 1 <= month <= 12
    ensures FirstOf(12 * year + month) == if month == 12 then Time(year + 1, 1, 1, 0) else Time(year, month + 1, 1, 0)
  {
  }

  /** The length of every month is that of the Gregorian calendar. */
  lemma MonthsAreGregorian(year: int, month: int)
    requires 1 <= month <= 12
    ensures var next := FirstOf(12 * year + month);
      DayNumber(next.year, next.month) - DayNumber(year, month) == DaysIn(year, month)
  {
    NextFirst(year, month);
    if month == 2 {
      FebruaryIsGregorian(year);
    } else {
      LongMonthIsGregorian(year, month);
    }
  }

  lemma LongMonthIsGregorian(year: int, month: int)
    requires 1 <= month <= 12 && month != 2
    ensures DayNumber(if month == 12 then year + 1 else year, if month == 12 then 1 else month + 1) - DayNumber(year, month)
         == DaysIn(year, month)
  {
    if month == 1 {
    } else if month == 12 {
    } else {
      var m := month - 3;
      assert (153 * (m + 1) + 2) / 5 - (153 * m + 2) / 5 == if month in {4, 6, 9, 11} then 30 else 31;
    }
  }

  predicate Civil(t: Time) {
    1 <= t.month <= 12 && 1 <= t.day <= DaysIn(t.year, t.month) && 0 <= t.nanos < DAY
  }

  predicate Before(t: Time, u: Time) {
    || t.year < u.year
    || (t.year == u.year && t.month < u.month)
    || (t.year == u.year && t.month == u.month && t.day < u.day)
    || (t.year == u.year && t.month == u.month && t.day == u.day && t.nanos < u.nanos)
  }

  /** Months numbered from January of year 0. */
  function Index(t: Time): int {
    12 * t.year + t.month - 1
  }

  function FirstOf(m: int): Time {
    Time(m / 12, m % 12 + 1, 1, 0)
  }

  /** monthStartUTC, which takes the zero time for now. */
  function MonthStart(now: Time, t: Time): Time {
    if t == ZERO then Time(now.year, now.month, 1, 0) else Time(t.year, t.month, 1, 0)
  }

  /** AddDate(0, 1, 0): days that the next month lacks run over into the one after. */
  function AddMonth(t: Time): Time {
    var next := FirstOf(Index(t) + 1);
    var days := DaysIn(next.year, next.month);
    if t.day <= days then Time(next.year, next.month, t.day, t.nanos)
    else
      var later := FirstOf(Index(t) + 2);
      Time(later.year, later.month, t.day - days, t.nanos)
  }

  lemma AddMonthIsCivil(t: Time)
    requires Civil(t)
    ensures Civil(AddMonth(t)) && Before(t, AddMonth(t))
    ensures Index(t) + 1 <= Index(AddMonth(t)) <= Index(t) + 2
    ensures t.day <= 28 ==> Index(AddMonth(t)) == Index(t) + 1
  {
  }

  /** A month's instants are those from its first up to the next month's first. */
  lemma MonthIsInterval(m: int, t: Time)
    requires Civil(t)
    ensures !Before(t, FirstOf(m)) && Before(t, AddMonth(FirstOf(m))) <==> Index(t) == m
    ensures AddMonth(FirstOf(m)) == FirstOf(m + 1) && Index(FirstOf(m)) == m && Civil(FirstOf(m))
  {
  }

  lemma FirstsOrder(j: int, k: int)
    ensures Before(FirstOf(j), FirstOf(k)) <==> j < k
    ensures FirstOf(Index(FirstOf(j))) == FirstOf(j) && Index(FirstOf(j)) == j
  {
  }

  lemma BeforeMeansNoLaterMonth(t: Time, u: Time)
    requires Civil(t) && Civil(u) && !Before(u, t)
    ensures Index(t) <= Index(u)
  {
  }

  /** The month that monthStartUTC makes of the first of month m. */
  function Restarted(now: Time, m: int): int {
    if m == ZERO_MONTH then Index(now) else m
  }

  lemma MonthStartOfFirst(now: Time, m: int)
    requires Civil(now)
    ensures MonthStart(now, FirstOf(m)) == FirstOf(Restarted(now, m))
  {
  }

  lemma MonthStartOf(now: Time, t: Time)
    requires Civil(now) && Civil(t)
    ensures MonthStart(now, t) == FirstOf(if t == ZERO then Index(now) else Index(t))
  {
  }

  // ---- Lists of months ------------------------------------------------------------------

  function Min(a: int, b: int): int {
    if a < b then a else b
  }

  function Max(a: int, b: int): int {
    if a < b then b else a
  }

  /** The firsts of months lo to hi. */
  ghost predicate ListsMonths(out: seq<Time>, lo: int, hi: int) {
    |out| == hi - lo + 1 && forall i :: 0 <= i < |out| ==> out[i] == FirstOf(lo + i)
  }

  /** Every month from one instant's to the other's, in order, whichever comes first. */
  method MonthStartsBetween(now: Time, from: Time, to: Time) returns (out: seq<Time>)
    requires Civil(now) && Civil(from) && Civil(to)
    ensures var a, b := Index(MonthStart(now, from)), Index(MonthStart(now, to)); ListsMonths(out, Min(a, b), Max(a, b))
  {
    var first, last := MonthStart(now, from), MonthStart(now, to);
    ghost var lo, hi := Index(first), Index(last);
    MonthStartOf(now, from);
    MonthStartOf(now, to);
    FirstsOrder(hi, lo);
    if Before(last, first) {
      first, last := last, first;
      lo, hi := hi, lo;
    }
    out := [];
    var t := first;
    ghost var k := lo;
    while !Before(last, t)
      invariant t == FirstOf(k) && lo <= k <= hi + 1
      invariant ListsMonths(out, lo, k - 1)
      decreases hi - k
    {
      FirstsOrder(hi, k);
      MonthIsInterval(k, t);
      out := out + [t];
      t := AddMonth(t);
      k := k + 1;
    }
    FirstsOrder(hi, k);
  }

  // ---- Month keys -----------------------------------------------------------------------

  function Pad(s: string, width: nat): string
    decreases if |s| < width then width - |s| else 0
  {
    if |s| < width then Pad("0" + s, width) else s
  }

  predicate Digits(s: string) {
    forall i :: 0 <= i < |s| ==> '0' <= s[i] <= '9'
  }

  /** The number that digits stand for. */
  function Value(s: string): int {
    if s == "" then 0 else 10 * Value(s[..|s| - 1]) + (s[|s| - 1] as int - '0' as int)
  }

  lemma {:induction false} ValueOfDecimal(n: nat)
    ensures Value(Decimal(n)) == n && Digits(Decimal(n)) && Decimal(n) != ""
  {
    if n >= 10 {
      ValueOfDecimal(n / 10);
      assert Decimal(n)[..|Decimal(n)| - 1] == Decimal(n / 10);
    } else {
      assert Decimal(n)[..0] == "";
    }
  }

  lemma {:induction false} LeadingZero(s: string)
    ensures Value("0" + s) == Value(s)
  {
    if s == "" {
      assert ("0" + s)[..0] == "";
    } else {
      LeadingZero(s[..|s| - 1]);
      assert ("0" + s)[..|s|] == "0" + s[..|s| - 1];
    }
  }

  lemma {:induction false} PadKeepsValue(s: string, width: nat)
    requires Digits(s)
    ensures Value(Pad(s, width)) == Value(s) && Digits(Pad(s, width))
    ensures |Pad(s, width)| == if |s| < width then width else |s|
    ensures |s| >= width ==> Pad(s, width) == s
    decreases if |s| < width then width - |s| else 0
  {
    if |s| < width {
      LeadingZero(s);
      PadKeepsValue("0" + s, width);
    }
  }

  /** An integer in at least four places: `signed` says whether a minus sign takes one of them. */
  function Places(n: int, signed: bool): string {
    if n >= 0 then Pad(Decimal(n), 4) else "-" + Pad(Decimal(-n), if signed then 3 else 4)
  }

  lemma PlacesInjective(m: int, n: int, signed: bool)
    requires Places(m, signed) == Places(n, signed)
    ensures m == n
  {
    var width := if signed then 3 else 4;
    ValueOfDecimal(if m < 0 then -m else m);
    ValueOfDecimal(if n < 0 then -n else n);
    PadKeepsValue(Decimal(if m < 0 then -m else m), if m < 0 then width else 4);
    PadKeepsValue(Decimal(if n < 0 then -n else n), if n < 0 then width else 4);
    assert m < 0 <==> Places(m, signed)[0] == '-';
    assert n < 0 <==> Places(n, signed)[0] == '-';
    if m < 0 {
      assert Places(m, signed)[1..] == Pad(Decimal(-m), width) && Places(n, signed)[1..] == Pad(Decimal(-n), width);
    }
  }

  function TwoPlaces(n: nat): string
    requires n < 100
  {
    [Digit(n / 10), Digit(n % 10)]
  }

  /** Format("2006-01"). */
  function Key(year: int, month: int): string
    requires 0 <= month < 100
  {
    Places(year, false) + ("-" + TwoPlaces(month))
  }

  lemma SuffixSplits(a: string, b: string, x: string, y: string)
    requires a + x == b + y && |x| == |y|
    ensures a == b && x == y
  {
    assert (a + x)[|a|..] == x && (a + x)[..|a|] == a && (b + y)[|b|..] == y && (b + y)[..|b|] == b;
  }

  lemma TwoPlacesInjective(m: nat, n: nat)
    requires m < 100 && n < 100 && TwoPlaces(m) == TwoPlaces(n)
    ensures m == n
  {
    assert TwoPlaces(m)[0] == TwoPlaces(n)[0] && TwoPlaces(m)[1] == TwoPlaces(n)[1];
    DigitOrder(m / 10, n / 10);
    DigitOrder(m % 10, n % 10);
  }

  lemma DigitOrder(m: nat, n: nat)
    requires m < 10 && n < 10
    ensures Digit(m) < Digit(n) <==> m < n
    ensures Digit(m) == Digit(n) <==> m == n
  {
  }

  /** No two months share a key. */
  lemma KeyInjective(y: int, m: nat, z: int, n: nat)
    requires m < 100 && n < 100 && Key(y, m) == Key(z, n)
    ensures y == z && m == n
  {
    var a, b := "-" + TwoPlaces(m), "-" + TwoPlaces(n);
    SuffixSplits(Places(y, false), Places(z, false), a, b);
    PlacesInjective(y, z, false);
    assert a[1..] == TwoPlaces(m) && b[1..] == TwoPlaces(n);
    TwoPlacesInjective(m, n);
  }

  // ---- Lexical and chronological order --------------------------------------------------

  lemma {:induction false} LessConcat(a: string, b: string, x: string, y: string)
    requires |a| == |b|
    ensures Less(a + x, b + y) <==> Less(a, b) || (a == b && Less(x, y))
  {
    if a == "" {
      assert a + x == x && b + y == y;
    } else {
      LessConcat(a[1..], b[1..], x, y);
      assert (a + x)[1..] == a[1..] + x && (b + y)[1..] == b[1..] + y;
      assert a == [a[0]] + a[1..] && b == [b[0]] + b[1..];
    }
  }

  lemma {:induction false} LessIsNumeric(a: string, b: string)
    requires Digits(a) && Digits(b) && |a| == |b|
    ensures Less(a, b) <==> Value(a) < Value(b)
    ensures a == b <==> Value(a) == Value(b)
  {
    if a != "" {
      var n := |a| - 1;
      LessIsNumeric(a[..n], b[..n]);
      LessConcat(a[..n], b[..n], [a[n]], [b[n]]);
      assert a == a[..n] + [a[n]] && b == b[..n] + [b[n]];
    }
  }

  /** How many digits the key gives a year. */
  function Width(year: nat): nat {
    |Places(year, false)|
  }

  lemma YearOrder(y: nat, z: nat)
    requires Width(y) == Width(z)
    ensures Less(Places(y, false), Places(z, false)) <==> y < z
    ensures Places(y, false) == Places(z, false) <==> y == z
  {
    ValueOfDecimal(y);
    ValueOfDecimal(z);
    PadKeepsValue(Decimal(y), 4);
    PadKeepsValue(Decimal(z), 4);
    LessIsNumeric(Places(y, false), Places(z, false));
  }

  /** Keys whose years have the same number of digits sort chronologically. */
  lemma KeyOrder(y: nat, m: nat, z: nat, n: nat)
    requires m < 100 && n < 100 && Width(y) == Width(z)
    ensures Less(Key(y, m), Key(z, n)) <==> y < z || (y == z && m < n)
  {
    YearOrder(y, z);
    LessConcat(Places(y, false), Places(z, false), "-" + TwoPlaces(m), "-" + TwoPlaces(n));
    TwoPlacesOrder(m, n);
  }

  lemma TwoPlacesOrder(m: nat, n: nat)
    requires m < 100 && n < 100
    ensures Less("-" + TwoPlaces(m), "-" + TwoPlaces(n)) <==> m < n
  {
    DigitOrder(m / 10, n / 10);
    DigitOrder(m % 10, n % 10);
    var a, b := [Digit(m / 10)], [Digit(n / 10)];
    LessConcat("-", "-", TwoPlaces(m), TwoPlaces(n));
    LessIrreflexive("-");
    LessConcat(a, b, [Digit(m % 10)], [Digit(n % 10)]);
    assert TwoPlaces(m) == a + [Digit(m % 10)] && TwoPlaces(n) == b + [Digit(n % 10)];
  }

  lemma SameTens(n: nat)
    requires n % 10 != 9
    ensures |Decimal(n)| == |Decimal(n + 1)|
  {
    assert (n + 1) / 10 == n / 10;
  }

  /** A year that needs one more digit than the year before turns a leading 9 into a leading 1. */
  lemma {:induction false} Carry(n: nat)
    requires |Decimal(n)| != |Decimal(n + 1)|
    ensures |Decimal(n + 1)| == |Decimal(n)| + 1 && Decimal(n) != "" && Decimal(n)[0] == '9' && Decimal(n + 1)[0] == '1'
  {
    if n % 10 != 9 { SameTens(n); }
    if n >= 10 {
      assert (n + 1) / 10 == n / 10 + 1;
      Carry(n / 10);
    } else {
      assert Decimal(10) == Decimal(1) + [Digit(0)];
    }
  }

  lemma WidthOfYear(year: nat)
    ensures Width(year) == if |Decimal(year)| < 4 then 4 else |Decimal(year)|
    ensures |Decimal(year)| >= 4 ==> Places(year, false) == Decimal(year)
  {
    ValueOfDecimal(year);
    PadKeepsValue(Decimal(year), 4);
  }

  lemma KeyDisorder(year: nat, m: nat, n: nat)
    requires m < 100 && n < 100 && Width(year) != Width(year + 1)
    ensures Width(year) < Width(year + 1) && Less(Key(year + 1, n), Key(year, m))
  {
    WidthOfYear(year);
    WidthOfYear(year + 1);
    Carry(year);
    assert Key(year + 1, n)[0] == '1' && Key(year, m)[0] == '9';
  }

  lemma {:induction false} WidthGrows(y: nat, z: nat)
    requires y <= z
    ensures Width(y) <= Width(z)
    decreases z - y
  {
    if y < z {
      WidthGrows(y, z - 1);
      if Width(z - 1) != Width(z) { KeyDisorder(z - 1, 1, 1); }
    }
  }

  lemma {:induction false} WidthJump(y: nat, z: nat) returns (at: nat)
    requires y <= z && Width(y) != Width(z)
    ensures y <= at < z && Width(at) != Width(at + 1)
    decreases z - y
  {
    if Width(y) != Width(y + 1) { return y; }
    at := WidthJump(y + 1, z);
  }

  function KeyFor(t: Time): string
    requires Civil(t)
  {
    Key(t.year, t.month)
  }

  predicate IsStart(t: Time) {
    Civil(t) && t.day == 1 && t.nanos == 0
  }

  lemma StartsWithOneKey(t: Time, u: Time)
    requires IsStart(t) && IsStart(u) && KeyFor(t) == KeyFor(u)
    ensures t == u
  {
    KeyInjective(t.year, t.month, u.year, u.month);
  }

  ghost predicate AllCivil(ts: seq<Time>) {
    forall i :: 0 <= i < |ts| ==> Civil(ts[i])
  }

  /** The months of these instants. */
  ghost function Starts(now: Time, ts: seq<Time>): set<Time> {
    set i | 0 <= i < |ts| :: MonthStart(now, ts[i])
  }

  lemma StartsOneMore(now: Time, ts: seq<Time>, i: nat)
    requires i < |ts|
    ensures Starts(now, ts[..i + 1]) == Starts(now, ts[..i]) + {MonthStart(now, ts[i])}
  {
    var a, b := ts[..i], ts[..i + 1];
    assert b == a + [ts[i]];
    forall t | t in Starts(now, a) + {MonthStart(now, ts[i])} ensures t in Starts(now, b) {
      if t in Starts(now, a) {
        var j :| 0 <= j < i && t == MonthStart(now, a[j]);
        assert t == MonthStart(now, b[j]);
      } else {
        assert t == MonthStart(now, b[i]);
      }
    }
  }

  ghost predicate InKeyOrder(out: seq<Time>) {
    AllCivil(out) && forall i, j :: 0 <= i < j < |out| ==> Less(KeyFor(out[i]), KeyFor(out[j]))
  }

  /** These months, each once, in the order of their keys. */
  ghost predicate UniqueMonths(months: set<Time>, out: seq<Time>) {
    InKeyOrder(out) && forall t :: t in out <==> t in months
  }

  ghost predicate KeyedBy(seen: map<string, Time>) {
    forall k :: k in seen ==> IsStart(seen[k]) && k == KeyFor(seen[k])
  }

  lemma SeenOneMore(seen: map<string, Time>, m: Time)
    requires KeyedBy(seen) && IsStart(m)
    ensures KeyedBy(seen[KeyFor(m) := m]) && seen[KeyFor(m) := m].Values == seen.Values + {m}
  {
    var key := KeyFor(m);
    if key in seen { StartsWithOneKey(m, seen[key]); }
    ValuesAfter(seen, key, m);
  }

  lemma ValuesAfter(seen: map<string, Time>, key: string, m: Time)
    requires key in seen ==> seen[key] == m
    ensures seen[key := m].Values == seen.Values + {m}
  {
    var more := seen[key := m];
    assert more[key] == m;
    forall t | t in seen.Values ensures t in more.Values {
      var k :| k in seen && seen[k] == t;
      assert more[k] == t;
    }
  }

  method UniqueMonthStarts(now: Time, ts: seq<Time>) returns (out: seq<Time>)
    requires Civil(now) && AllCivil(ts)
    ensures UniqueMonths(Starts(now, ts), out)
  {
    var seen: map<string, Time> := map[];
    for i := 0 to |ts|
      invariant KeyedBy(seen) && seen.Values == Starts(now, ts[..i])
    {
      var m := MonthStart(now, ts[i]);
      SeenOneMore(seen, m);
      StartsOneMore(now, ts, i);
      seen := seen[KeyFor(m) := m];
    }
    assert ts[..|ts|] == ts;
    var keys := CollectKeys(seen);
    keys := SortStrings(keys, seen.Keys);
    out := Pick(seen, keys);
    ListedMonths(seen, keys, out);
  }

  method Pick(seen: map<string, Time>, keys: seq<string>) returns (out: seq<Time>)
    requires forall i :: 0 <= i < |keys| ==> keys[i] in seen
    ensures |out| == |keys| && forall j :: 0 <= j < |out| ==> out[j] == seen[keys[j]]
  {
    out := [];
    for i := 0 to |keys|
      invariant |out| == i && forall j :: 0 <= j < i ==> out[j] == seen[keys[j]]
    {
      out := out + [seen[keys[i]]];
    }
  }

  lemma ListedMonths(seen: map<string, Time>, keys: seq<string>, out: seq<Time>)
    requires KeyedBy(seen) && Lists(keys, seen.Keys)
    requires |out| == |keys| && forall j :: 0 <= j < |out| ==> out[j] == seen[keys[j]]
    ensures UniqueMonths(seen.Values, out)
  {
    forall i | 0 <= i < |out| ensures Civil(out[i]) && KeyFor(out[i]) == keys[i] && out[i] in seen.Values {
      assert keys[i] in seen;
    }
    forall t | t in seen.Values ensures t in out {
      var k :| k in seen && seen[k] == t;
      var n :| 0 <= n < |keys| && keys[n] == k;
      assert out[n] == t;
    }
  }

  // ---- When the order of the keys is that of time ---------------------------------------

  ghost predicate Chronological(out: seq<Time>) {
    forall i, j :: 0 <= i < j < |out| ==> Before(out[i], out[j])
  }

  /** The firsts of months lo to hi, as a set. */
  ghost function MonthRange(lo: int, hi: int): set<Time> {
    set m | lo <= m <= hi :: FirstOf(m)
  }

  lemma MonthOfRange(lo: nat, hi: nat, t: Time)
    requires t in MonthRange(lo, hi)
    ensures IsStart(t) && lo <= Index(t) <= hi && t == FirstOf(Index(t)) && lo / 12 <= t.year <= hi / 12
  {
  }

  lemma SameWidth(y: nat, at: nat, z: nat)
    requires y <= at <= z && Width(y) == Width(z)
    ensures Width(at) == Width(y)
  {
    WidthGrows(y, at);
    WidthGrows(at, z);
  }

  lemma KeyOrderIsChronological(out: seq<Time>, lo: nat, hi: nat)
    requires lo <= hi && UniqueMonths(MonthRange(lo, hi), out) && Width(lo / 12) == Width(hi / 12)
    ensures Chronological(out)
  {
    forall i, j | 0 <= i < j < |out| ensures Before(out[i], out[j]) {
      var t, u := out[i], out[j];
      assert t in out && u in out;
      MonthOfRange(lo, hi, t);
      MonthOfRange(lo, hi, u);
      SameWidth(lo / 12, t.year, hi / 12);
      SameWidth(lo / 12, u.year, hi / 12);
      KeyOrder(t.year, t.month, u.year, u.month);
    }
  }

  lemma KeysPlace(out: seq<Time>, j: nat, i: nat, y: nat)
    requires InKeyOrder(out) && Width(y) != Width(y + 1) && i < |out| && j < |out|
    requires out[i] == Time(y, 12, 1, 0) && out[j] == Time(y + 1, 1, 1, 0)
    ensures j < i
  {
    KeyDisorder(y, 12, 1);
    LessAsymmetric(KeyFor(out[j]), KeyFor(out[i]));
  }

  /** At such a turn of the year January comes before December. */
  lemma KeyOrderTurnsYear(out: seq<Time>, lo: nat, hi: nat, y: nat)
    requires UniqueMonths(MonthRange(lo, hi), out) && lo / 12 <= y < hi / 12 && Width(y) != Width(y + 1)
    ensures !Chronological(out)
  {
    var december, january := Time(y, 12, 1, 0), Time(y + 1, 1, 1, 0);
    assert december == FirstOf(12 * y + 11) && january == FirstOf(12 * y + 12);
    assert december in out && january in out;
    var i :| 0 <= i < |out| && out[i] == december;
    var j :| 0 <= j < |out| && out[j] == january;
    KeysPlace(out, j, i, y);
    assert !Before(january, december);
  }

  /** Over consecutive months of years from 0 on, the order of the keys is that of time exactly when
      the first and the last year are written with equally many digits. */
  lemma ChronologicalIff(out: seq<Time>, lo: nat, hi: nat)
    requires lo <= hi && UniqueMonths(MonthRange(lo, hi), out)
    ensures Chronological(out) <==> Width(lo / 12) == Width(hi / 12)
  {
    if Width(lo / 12) == Width(hi / 12) {
      KeyOrderIsChronological(out, lo, hi);
    } else {
      var y := WidthJump(lo / 12, hi / 12);
      KeyOrderTurnsYear(out, lo, hi, y);
    }
  }
}
