/** The monthly partitions of api_logs: creation, routing of rows and expiry, as in
    internal/storage/logs.go. DDL and registry statements succeed. */
module LogPartitions {
  import opened Decimals
  import opened Options
  import opened Months
  import opened Sorting

  datatype Surface = Business | Internal | Unknown

  datatype Spec = Spec(surface: Surface, start: Time, end: Time, autoDrop: bool, archiveRequired: bool)

  function MakeSpec(now: Time, surface: Surface, month: Time): Spec {
    var start := MonthStart(now, month);
    Spec(surface, start, AddMonth(start), surface == Internal, surface == Business)
  }

  /** FOR VALUES FROM start TO end. */
  predicate Contains(p: Spec, t: Time) {
    !Before(t, p.start) && Before(t, p.end)
  }

  // ---- Coverage -------------------------------------------------------------------------

  /** Exactly one of the partitions made for these months holds the instant. */
  ghost predicate HeldOnce(now: Time, surface: Surface, months: seq<Time>, t: Time) {
    && (exists i :: 0 <= i < |months| && Contains(MakeSpec(now, surface, months[i]), t))
    && (forall i, j :: 0 <= i < j < |months| ==>
          !(Contains(MakeSpec(now, surface, months[i]), t) && Contains(MakeSpec(now, surface, months[j]), t)))
  }

  /** The months asked for all keep their own partition. */
  predicate NoRestart(now: Time, lo: int, hi: int) {
    lo <= ZERO_MONTH <= hi ==> Index(now) == ZERO_MONTH
  }

  lemma StartsOfList(now: Time, raw: seq<Time>, lo: int, hi: int)
    requires Civil(now) && lo <= hi && ListsMonths(raw, lo, hi)
    ensures Starts(now, raw) == set m | lo <= m <= hi :: FirstOf(Restarted(now, m))
  {
    forall m | lo <= m <= hi ensures FirstOf(Restarted(now, m)) in Starts(now, raw) {
      MonthStartOfFirst(now, m);
      assert MonthStart(now, raw[m - lo]) == FirstOf(Restarted(now, m));
    }
    forall t | t in Starts(now, raw) ensures exists m :: lo <= m <= hi && t == FirstOf(Restarted(now, m)) {
      var i :| 0 <= i < |raw| && t == MonthStart(now, raw[i]);
      MonthStartOfFirst(now, lo + i);
      assert lo <= lo + i <= hi;
    }
  }

  /** A restarted month starts where it did when partitions are made of it. */
  lemma RestartedStaysPut(now: Time, m: int)
    requires Civil(now)
    ensures var start := FirstOf(Restarted(now, m)); MonthStart(now, start) == start
  {
    MonthStartOfFirst(now, Restarted(now, m));
    assert Restarted(now, Restarted(now, m)) == Restarted(now, m);
  }

  lemma StartedPartitionHolds(now: Time, surface: Surface, start: Time, k: int, t: Time)
    requires MonthStart(now, start) == start
    requires !Before(t, start) && Before(t, AddMonth(start)) <==> Index(t) == k
    ensures Contains(MakeSpec(now, surface, start), t) <==> Index(t) == k
  {
  }

  /** The partition of a restarted month holds that month's instants. */
  lemma PartitionHoldsMonth(now: Time, surface: Surface, m: int, t: Time)
    requires Civil(now) && Civil(t)
    ensures Contains(MakeSpec(now, surface, FirstOf(Restarted(now, m))), t) <==> Index(t) == Restarted(now, m)
  {
    RestartedStaysPut(now, m);
    MonthIsInterval(Restarted(now, m), t);
    StartedPartitionHolds(now, surface, FirstOf(Restarted(now, m)), Restarted(now, m), t);
  }

  lemma EachMonthOnce(now: Time, months: seq<Time>, i: nat, j: nat)
    requires InKeyOrder(months) && i < j < |months|
    ensures months[i] != months[j]
  {
    LessIrreflexive(KeyFor(months[i]));
  }

  lemma MonthInList(now: Time, surface: Surface, raw: seq<Time>, months: seq<Time>, lo: int, hi: int, i: nat, t: Time)
    requires Civil(now) && Civil(t) && lo <= hi && ListsMonths(raw, lo, hi) && UniqueMonths(Starts(now, raw), months)
    requires i < |months|
    ensures exists m :: lo <= m <= hi && months[i] == FirstOf(Restarted(now, m))
    ensures Contains(MakeSpec(now, surface, months[i]), t) <==> months[i] == FirstOf(Index(t))
  {
    StartsOfList(now, raw, lo, hi);
    assert months[i] in Starts(now, raw);
    var m :| lo <= m <= hi && months[i] == FirstOf(Restarted(now, m));
    PartitionHoldsMonth(now, surface, m, t);
    FirstsOrder(Restarted(now, m), Index(t));
    FirstsOrder(Index(t), Index(t));
  }

  lemma ListedMonthIsThere(now: Time, raw: seq<Time>, months: seq<Time>, lo: int, hi: int, m: int)
    requires Civil(now) && lo <= m <= hi && ListsMonths(raw, lo, hi) && UniqueMonths(Starts(now, raw), months)
    ensures FirstOf(Restarted(now, m)) in months
  {
    StartsOfList(now, raw, lo, hi);
  }

  lemma HeldAtMostOnce(now: Time, surface: Surface, raw: seq<Time>, months: seq<Time>, lo: int, hi: int, t: Time, i: nat, j: nat)
    requires Civil(now) && Civil(t) && lo <= hi && ListsMonths(raw, lo, hi) && UniqueMonths(Starts(now, raw), months)
    requires i < j < |months|
    ensures !(Contains(MakeSpec(now, surface, months[i]), t) && Contains(MakeSpec(now, surface, months[j]), t))
  {
    MonthInList(now, surface, raw, months, lo, hi, i, t);
    MonthInList(now, surface, raw, months, lo, hi, j, t);
    EachMonthOnce(now, months, i, j);
  }

  lemma ListedIsHeld(now: Time, surface: Surface, raw: seq<Time>, months: seq<Time>, lo: int, hi: int, t: Time, m: int)
    requires Civil(now) && Civil(t) && lo <= m <= hi && ListsMonths(raw, lo, hi) && UniqueMonths(Starts(now, raw), months)
    requires Index(t) == Restarted(now, m)
    ensures exists i :: 0 <= i < |months| && Contains(MakeSpec(now, surface, months[i]), t)
  {
    ListedMonthIsThere(now, raw, months, lo, hi, m);
    var i :| 0 <= i < |months| && months[i] == FirstOf(Index(t));
    MonthInList(now, surface, raw, months, lo, hi, i, t);
  }

  lemma HeldIsListed(now: Time, surface: Surface, raw: seq<Time>, months: seq<Time>, lo: int, hi: int, t: Time, i: nat)
    requires Civil(now) && Civil(t) && lo <= hi && ListsMonths(raw, lo, hi) && UniqueMonths(Starts(now, raw), months)
    requires i < |months| && Contains(MakeSpec(now, surface, months[i]), t)
    ensures exists m :: lo <= m <= hi && Index(t) == Restarted(now, m)
  {
    MonthInList(now, surface, raw, months, lo, hi, i, t);
    var m :| lo <= m <= hi && months[i] == FirstOf(Restarted(now, m));
    FirstsOrder(Restarted(now, m), Index(t));
    FirstsOrder(Index(t), Index(t));
  }

  lemma HeldOnceIff(now: Time, surface: Surface, raw: seq<Time>, months: seq<Time>, lo: int, hi: int, t: Time)
    requires Civil(now) && Civil(t) && lo <= hi && ListsMonths(raw, lo, hi) && UniqueMonths(Starts(now, raw), months)
    ensures HeldOnce(now, surface, months, t) <==> exists m :: lo <= m <= hi && Index(t) == Restarted(now, m)
  {
    forall i, j | 0 <= i < j < |months|
      ensures !(Contains(MakeSpec(now, surface, months[i]), t) && Contains(MakeSpec(now, surface, months[j]), t))
    {
      HeldAtMostOnce(now, surface, raw, months, lo, hi, t, i, j);
    }
    if m :| lo <= m <= hi && Index(t) == Restarted(now, m) { ListedIsHeld(now, surface, raw, months, lo, hi, t, m); }
    if HeldOnce(now, surface, months, t) {
      var i :| 0 <= i < |months| && Contains(MakeSpec(now, surface, months[i]), t);
      HeldIsListed(now, surface, raw, months, lo, hi, t, i);
    }
  }

  lemma MonthStartTwice(now: Time, t: Time)
    requires Civil(now) && Civil(t)
    ensures MonthStart(now, MonthStart(now, t)) == FirstOf(Restarted(now, Index(t)))
  {
    MonthStartOf(now, t);
    MonthStartOfFirst(now, if t == ZERO then Index(now) else Index(t));
    MonthStartOfFirst(now, Index(now));
  }

  /** The instants from one to the other. */
  ghost predicate Within(from: Time, to: Time, t: Time) {
    Civil(t) && !Before(t, from) && !Before(to, t)
  }

  ghost predicate Covered(now: Time, surface: Surface, from: Time, to: Time, months: seq<Time>) {
    forall t :: Within(from, to, t) ==> HeldOnce(now, surface, months, t)
  }

  /** The partitions made for a range hold each of its instants exactly once, except that January of
      year 1 is taken for the current month: a range reaching into it is not covered. */
  lemma RangeIsCoveredIff(now: Time, surface: Surface, from: Time, to: Time, raw: seq<Time>, months: seq<Time>)
    requires Civil(now) && Civil(from) && Civil(to) && !Before(to, from)
    requires var a, b := Restarted(now, Index(from)), Restarted(now, Index(to)); ListsMonths(raw, Min(a, b), Max(a, b))
    requires UniqueMonths(Starts(now, raw), months)
    ensures Covered(now, surface, from, to, months) <==> NoRestart(now, Index(from), Index(to))
  {
    var a, b := Restarted(now, Index(from)), Restarted(now, Index(to));
    BeforeMeansNoLaterMonth(from, to);
    if NoRestart(now, Index(from), Index(to)) {
      forall t | Within(from, to, t) ensures HeldOnce(now, surface, months, t) {
        BeforeMeansNoLaterMonth(from, t);
        BeforeMeansNoLaterMonth(t, to);
        HeldOnceIff(now, surface, raw, months, Min(a, b), Max(a, b), t);
        assert Index(t) == Restarted(now, Index(t));
      }
    } else {
      var t := if Index(from) == ZERO_MONTH then from else ZERO;
      assert Within(from, to, t) && Index(t) == ZERO_MONTH;
      HeldOnceIff(now, surface, raw, months, Min(a, b), Max(a, b), t);
    }
  }

  /** monthStartsBetween of the months of two instants. */
  method MonthsOf(now: Time, from: Time, to: Time) returns (out: seq<Time>)
    requires Civil(now) && Civil(from) && Civil(to)
    ensures var a, b := Restarted(now, Index(from)), Restarted(now, Index(to)); ListsMonths(out, Min(a, b), Max(a, b))
    ensures AllCivil(out)
  {
    MonthStartTwice(now, from);
    MonthStartTwice(now, to);
    StartIsCivil(now, from);
    StartIsCivil(now, to);
    ghost var a, b := Restarted(now, Index(from)), Restarted(now, Index(to));
    FirstsOrder(a, b);
    FirstsOrder(b, a);
    out := MonthStartsBetween(now, MonthStart(now, from), MonthStart(now, to));
    FirstsAreCivil(out, Min(a, b), Max(a, b));
  }

  lemma StartIsCivil(now: Time, t: Time)
    requires Civil(now) && Civil(t)
    ensures Civil(MonthStart(now, t))
  {
  }

  /** The months that partitions are made for. */
  method MonthsToCover(now: Time, from: Time, to: Time) returns (months: seq<Time>)
    requires Civil(now) && Civil(from) && Civil(to) && !Before(to, from)
    ensures forall surface :: Covered(now, surface, from, to, months) <==> NoRestart(now, Index(from), Index(to))
  {
    var raw := MonthsOf(now, from, to);
    months := UniqueMonthStarts(now, raw);
    forall surface ensures Covered(now, surface, from, to, months) <==> NoRestart(now, Index(from), Index(to)) {
      RangeIsCoveredIff(now, surface, from, to, raw, months);
    }
  }

  lemma FirstsAreCivil(raw: seq<Time>, lo: int, hi: int)
    requires ListsMonths(raw, lo, hi)
    ensures AllCivil(raw)
  {
    forall i | 0 <= i < |raw| ensures Civil(raw[i]) {
      MonthIsInterval(lo + i, ZERO);
    }
  }

  /** Consecutive partitions abut. */
  lemma PartitionsAbut(now: Time, surface: Surface, m: int)
    requires Civil(now) && m != ZERO_MONTH && m + 1 != ZERO_MONTH
    ensures MakeSpec(now, surface, FirstOf(m)).end == MakeSpec(now, surface, FirstOf(m + 1)).start
  {
    MonthStartOfFirst(now, m);
    MonthStartOfFirst(now, m + 1);
    MonthIsInterval(m, ZERO);
  }

  // ---- Partition names ------------------------------------------------------------------

  function SurfaceText(s: Surface): string {
    match s
    case Business => "business"
    case Internal => "internal"
    case Unknown => "unknown"
  }

  /** "api_logs_%s_%04d%02d". */
  function LeafName(surface: Surface, month: Time): string
    requires Civil(month)
  {
    "api_logs_" + (SurfaceText(surface) + ("_" + (Places(month.year, true) + TwoPlaces(month.month))))
  }

  lemma YearsAreFormatted()
    ensures Places(2026, true) == "2026" && Places(999, true) == "0999"
  {
    assert Decimal(2) == "2" && Decimal(20) == "20" && Decimal(202) == "202" && Decimal(2026) == "2026";
    assert Decimal(9) == "9" && Decimal(99) == "99" && Decimal(999) == "999" && Pad("999", 4) == Pad("0999", 4);
  }

  lemma NamesAreFormatted()
    ensures LeafName(Business, Time(2026, 1, 1, 0)) == "api_logs_business_202601"
    ensures LeafName(Internal, Time(999, 12, 1, 0)) == "api_logs_internal_099912"
    ensures LeafName(Unknown, Time(2026, 1, 1, 0)) == "api_logs_unknown_202601"
  {
    YearsAreFormatted();
    assert TwoPlaces(1) == "01" && TwoPlaces(12) == "12";
  }

  lemma SurfaceShows(s: Surface, r: Surface, x: string, y: string)
    requires SurfaceText(s) + x == SurfaceText(r) + y
    ensures s == r && x == y
  {
    assert (SurfaceText(s) + x)[0] == SurfaceText(s)[0] && (SurfaceText(r) + y)[0] == SurfaceText(r)[0];
    PrefixCancels(SurfaceText(s), x, y);
  }

  /** No two partitions share a name, so IF NOT EXISTS never takes one for another. */
  lemma LeafNameInjective(s: Surface, t: Time, r: Surface, u: Time)
    requires IsStart(t) && IsStart(u) && LeafName(s, t) == LeafName(r, u)
    ensures s == r && t == u
  {
    var x, y := Places(t.year, true) + TwoPlaces(t.month), Places(u.year, true) + TwoPlaces(u.month);
    PrefixCancels("api_logs_", SurfaceText(s) + ("_" + x), SurfaceText(r) + ("_" + y));
    SurfaceShows(s, r, "_" + x, "_" + y);
    PrefixCancels("_", x, y);
    SuffixSplits(Places(t.year, true), Places(u.year, true), TwoPlaces(t.month), TwoPlaces(u.month));
    PlacesInjective(t.year, u.year, true);
    TwoPlacesInjective(t.month, u.month);
  }

  // ---- The partitioned table ------------------------------------------------------------

  datatype Row = Row(surface: Surface, at: Time, text: string)

  datatype Entry = Entry(spec: Spec, dropped: bool)

  predicate IsSpec(p: Spec) {
    && IsStart(p.start) && p.end == AddMonth(p.start)
    && p.autoDrop == (p.surface == Internal) && p.archiveRequired == (p.surface == Business)
  }

  /** What a partition's name stands for; by LeafNameInjective, tables can be told apart by this. */
  datatype Leaf = Leaf(surface: Surface, month: Time)

  ghost predicate Named(name: Leaf, p: Spec) {
    IsSpec(p) && name == Leaf(p.surface, p.start)
  }

  function MonthOf(t: Time): Time {
    Time(t.year, t.month, 1, 0)
  }

  /** The leaf that holds a row, if it exists. */
  function Home(r: Row): Leaf {
    Leaf(r.surface, MonthOf(r.at))
  }

  lemma SpecHoldsItsMonth(p: Spec, t: Time)
    requires IsSpec(p) && Civil(t)
    ensures Contains(p, t) <==> p.start == MonthOf(t)
  {
    MonthIsInterval(Index(p.start), t);
    assert p.start == FirstOf(Index(p.start));
  }

  lemma HomeHolds(name: Leaf, p: Spec, r: Row)
    requires Named(name, p) && Civil(r.at)
    ensures name == Home(r) <==> p.surface == r.surface && Contains(p, r.at)
  {
    SpecHoldsItsMonth(p, r.at);
  }

  ghost predicate AllNamed(leaves: map<Leaf, Spec>) {
    forall n :: n in leaves ==> Named(n, leaves[n])
  }

  /** An internal partition that ended before the day of the cutoff. */
  predicate Expired(e: Entry, cutoff: Time) {
    e.spec.surface == Internal && e.spec.autoDrop && !e.dropped
    && Before(Time(e.spec.end.year, e.spec.end.month, e.spec.end.day, 0), Time(cutoff.year, cutoff.month, cutoff.day, 0))
  }

  /** The rows outside the leaves that are gone, in their order. */
  function Remaining(rows: seq<Row>, gone: set<Leaf>): seq<Row>
  {
    if rows == [] then []
    else if Home(rows[0]) in gone then Remaining(rows[1..], gone)
    else [rows[0]] + Remaining(rows[1..], gone)
  }

  /** Whatever an expiry removes was written before the cutoff, on the internal surface. */
  lemma ExpiredRowIsOld(name: Leaf, e: Entry, r: Row, cutoff: Time)
    requires Named(name, e.spec) && Civil(r.at) && Civil(cutoff) && Expired(e, cutoff) && Home(r) == name
    ensures r.surface == Internal && Before(r.at, cutoff)
  {
    HomeHolds(name, e.spec, r);
  }

  ghost predicate RowsOk(rows: seq<Row>) {
    forall i :: 0 <= i < |rows| ==> Civil(rows[i].at)
  }

  ghost predicate AllHoused(rows: seq<Row>, leaves: map<Leaf, Spec>) {
    RowsOk(rows) && forall i :: 0 <= i < |rows| ==> Home(rows[i]) in leaves
  }

  ghost predicate RegistryOk(registry: map<Leaf, Entry>) {
    forall n :: n in registry ==> Named(n, registry[n].spec)
  }

  lemma {:induction false} RemainingTwice(rows: seq<Row>, a: set<Leaf>, b: set<Leaf>)
    ensures Remaining(Remaining(rows, a), b) == Remaining(rows, a + b)
  {
    if rows != [] {
      RemainingTwice(rows[1..], a, b);
      if Home(rows[0]) !in a {
        assert ([rows[0]] + Remaining(rows[1..], a))[1..] == Remaining(rows[1..], a);
      }
    }
  }

  lemma {:induction false} RemainingWithoutLoss(rows: seq<Row>)
    ensures Remaining(rows, {}) == rows
  {
    if rows != [] { RemainingWithoutLoss(rows[1..]); }
  }

  /** What stays is every copy of every row outside the leaves that are gone. */
  lemma {:induction false} RemainingCounts(rows: seq<Row>, gone: set<Leaf>, r: Row)
    ensures multiset(Remaining(rows, gone))[r] == if Home(r) in gone then 0 else multiset(rows)[r]
  {
    if rows != [] {
      RemainingCounts(rows[1..], gone, r);
      assert rows == [rows[0]] + rows[1..];
    }
  }

  lemma {:induction false} RemainingStaysHoused(rows: seq<Row>, gone: set<Leaf>, leaves: map<Leaf, Spec>)
    requires AllHoused(rows, leaves)
    ensures AllHoused(Remaining(rows, gone), leaves - gone)
  {
    if rows != [] { RemainingStaysHoused(rows[1..], gone, leaves); }
  }

  ghost function Doomed(registry: map<Leaf, Entry>, cutoff: Time): set<Leaf> {
    set n | n in registry && Expired(registry[n], cutoff)
  }

  /** UPDATE ... SET dropped_at = now(). */
  ghost function MarkedDropped(registry: map<Leaf, Entry>, gone: set<Leaf>): map<Leaf, Entry> {
    map n | n in registry :: if n in gone then registry[n].(dropped := true) else registry[n]
  }

  lemma MarkOneMore(registry: map<Leaf, Entry>, gone: set<Leaf>, name: Leaf)
    requires name in registry && name !in gone
    ensures MarkedDropped(registry, gone)[name := registry[name].(dropped := true)] == MarkedDropped(registry, gone + {name})
  {
  }

  lemma MarkedStaysOk(registry: map<Leaf, Entry>, gone: set<Leaf>)
    requires RegistryOk(registry)
    ensures RegistryOk(MarkedDropped(registry, gone))
  {
  }

  /** A drop of expired partitions loses no row but internal ones written before the cutoff. */
  lemma OnlyOldRowsGo(rows: seq<Row>, registry: map<Leaf, Entry>, cutoff: Time, r: Row)
    requires RowsOk(rows) && RegistryOk(registry) && Civil(cutoff) && Civil(r.at)
    ensures multiset(Remaining(rows, Doomed(registry, cutoff)))[r] == multiset(rows)[r]
            || (r.surface == Internal && Before(r.at, cutoff))
  {
    var gone := Doomed(registry, cutoff);
    RemainingCounts(rows, gone, r);
    if Home(r) in gone { ExpiredRowIsOld(Home(r), registry[Home(r)], r, cutoff); }
  }

  /** An internal row whose month was over, by the first of the next, before the day of the cutoff, in a
      partition that is registered and has not been marked as dropped. */
  ghost predicate Expires(registry: map<Leaf, Entry>, r: Row, cutoff: Time) {
    && r.surface == Internal && Home(r) in registry && !registry[Home(r)].dropped
    && Before(FirstOf(Index(r.at) + 1), Time(cutoff.year, cutoff.month, cutoff.day, 0))
  }

  lemma ExpiresIff(registry: map<Leaf, Entry>, r: Row, cutoff: Time)
    requires RegistryOk(registry) && Civil(r.at)
    ensures Home(r) in Doomed(registry, cutoff) <==> Expires(registry, r, cutoff)
  {
    MonthIsInterval(Index(r.at), r.at);
    assert MonthOf(r.at) == FirstOf(Index(r.at));
    if Home(r) in registry { assert Named(Home(r), registry[Home(r)].spec); }
  }

  ghost predicate Extends(before: map<Leaf, Spec>, after: map<Leaf, Spec>) {
    forall n :: n in before ==> n in after && after[n] == before[n]
  }

  /** What has been dropped stays marked, and nothing else is. */
  ghost predicate SameMarks(before: map<Leaf, Entry>, after: map<Leaf, Entry>) {
    && (forall n :: n in before ==> n in after && (after[n].dropped <==> before[n].dropped))
    && forall n :: n in after && n !in before ==> !after[n].dropped
  }

  ghost function LeavesOf(start: Time): set<Leaf> {
    {Leaf(Business, start), Leaf(Internal, start), Leaf(Unknown, start)}
  }

  /** A leaf per surface for each of these months. */
  ghost function LeavesFor(now: Time, months: set<Time>): set<Leaf> {
    set t, n | t in months && n in LeavesOf(MonthStart(now, t)) :: n
  }

  lemma LeavesOneMore(now: Time, months: set<Time>, t: Time)
    ensures LeavesFor(now, months + {t}) == LeavesFor(now, months) + LeavesOf(MonthStart(now, t))
  {
  }

  /** A row of the old table; created_at may be missing. */
  datatype LegacyRow = LegacyRow(surface: Surface, at: Option<Time>, text: string)

  /** COALESCE(created_at, now()). */
  function Stamped(r: LegacyRow, now: Time): Row {
    Row(r.surface, if r.at.Some? then r.at.value else now, r.text)
  }

  ghost predicate LegacyOk(legacy: seq<LegacyRow>) {
    forall i :: 0 <= i < |legacy| && legacy[i].at.Some? ==> Civil(legacy[i].at.value)
  }

  /** The row's month is not taken for another. */
  predicate Settles(now: Time, r: Row) {
    Index(r.at) == ZERO_MONTH ==> Index(now) == ZERO_MONTH
  }

  lemma ZeroMonthGetsNone(now: Time, months: seq<Time>, r: Row)
    requires Civil(now) && AllCivil(months) && !Settles(now, r)
    ensures Home(r) !in LeavesFor(now, Starts(now, months))
  {
    forall t | t in Starts(now, months) ensures MonthStart(now, t) != MonthOf(r.at) {
      var i :| 0 <= i < |months| && t == MonthStart(now, months[i]);
      MonthStartTwice(now, months[i]);
      FirstsOrder(Restarted(now, Index(months[i])), ZERO_MONTH);
      FirstsOrder(ZERO_MONTH, ZERO_MONTH);
    }
  }

  /** The months of now and next, and those from the first dated row's to the last's. */
  method MonthsToMigrate(now: Time, legacy: seq<LegacyRow>) returns (months: seq<Time>)
    requires Civil(now) && LegacyOk(legacy)
    ensures AllCivil(months)
    ensures (forall i :: 0 <= i < |legacy| ==> Settles(now, Stamped(legacy[i], now))) ==>
              forall i :: 0 <= i < |legacy| ==> MonthOf(Stamped(legacy[i], now).at) in months
  {
    months := MonthsOf(now, now, AddMonth(now));
    ListHasMonth(months, Min(Index(now), Restarted(now, Index(AddMonth(now)))), Max(Index(now), Restarted(now, Index(AddMonth(now)))), now);
    var range := MinMax(legacy);
    if range.Some? {
      var more := MonthsOf(now, range.value.0, range.value.1);
      ghost var all := months + more;
      months := UniqueMonthStarts(now, months + more);
      UniqueKeepsMonth(now, all, months, now);
      if forall i :: 0 <= i < |legacy| ==> Settles(now, Stamped(legacy[i], now)) {
        forall i | 0 <= i < |legacy| && legacy[i].at.Some? ensures MonthOf(legacy[i].at.value) in months {
          SettledMonthIsListed(now, legacy, range.value.0, range.value.1, more, i);
          UniqueKeepsMonth(now, all, months, legacy[i].at.value);
        }
      }
    }
  }

  lemma SettledMonthIsListed(now: Time, legacy: seq<LegacyRow>, first: Time, last: Time, more: seq<Time>, i: nat)
    requires Civil(now) && LegacyOk(legacy) && i < |legacy| && legacy[i].at.Some?
    requires forall j :: 0 <= j < |legacy| ==> Settles(now, Stamped(legacy[j], now))
    requires exists j, k :: 0 <= j < |legacy| && 0 <= k < |legacy| && legacy[j].at == Some(first) && legacy[k].at == Some(last)
    requires Civil(first) && Civil(last) && Within(first, last, legacy[i].at.value)
    requires var a, b := Restarted(now, Index(first)), Restarted(now, Index(last)); ListsMonths(more, Min(a, b), Max(a, b))
    ensures MonthOf(legacy[i].at.value) in more && (Index(legacy[i].at.value) == ZERO_MONTH ==> Index(now) == ZERO_MONTH)
  {
    var t := legacy[i].at.value;
    var j, k :| 0 <= j < |legacy| && 0 <= k < |legacy| && legacy[j].at == Some(first) && legacy[k].at == Some(last);
    assert Settles(now, Stamped(legacy[j], now)) && Settles(now, Stamped(legacy[k], now)) && Settles(now, Stamped(legacy[i], now));
    BeforeMeansNoLaterMonth(first, t);
    BeforeMeansNoLaterMonth(t, last);
    ListHasMonth(more, Index(first), Index(last), t);
  }

  lemma MonthGetsLeaves(now: Time, months: seq<Time>, r: Row)
    requires Civil(now) && Civil(r.at) && MonthOf(r.at) in months && Settles(now, r)
    ensures Home(r) in LeavesFor(now, Starts(now, months))
  {
    var t := MonthOf(r.at);
    StaysItself(now, r.at);
    var i :| 0 <= i < |months| && months[i] == t;
    assert MonthStart(now, months[i]) in Starts(now, months);
    assert r.surface.Business? || r.surface.Internal? || r.surface.Unknown?;
    assert Home(r) in LeavesOf(MonthStart(now, t));
  }

  lemma StaysItself(now: Time, t: Time)
    requires Civil(now) && Civil(t) && (Index(t) == ZERO_MONTH ==> Index(now) == ZERO_MONTH)
    ensures MonthStart(now, MonthOf(t)) == MonthOf(t)
  {
  }

  lemma ListHasMonth(out: seq<Time>, lo: int, hi: int, t: Time)
    requires ListsMonths(out, lo, hi) && Civil(t) && lo <= Index(t) <= hi
    ensures MonthOf(t) in out
  {
    assert out[Index(t) - lo] == FirstOf(Index(t));
  }

  lemma UniqueKeepsMonth(now: Time, ts: seq<Time>, out: seq<Time>, t: Time)
    requires Civil(now) && Civil(t) && (Index(t) == ZERO_MONTH ==> Index(now) == ZERO_MONTH) && UniqueMonths(Starts(now, ts), out) && MonthOf(t) in ts
    ensures MonthOf(t) in out
  {
    StaysItself(now, t);
    var i :| 0 <= i < |ts| && ts[i] == MonthOf(t);
    assert MonthStart(now, ts[i]) in Starts(now, ts);
  }

  /** SELECT min(created_at), max(created_at). */
  method MinMax(legacy: seq<LegacyRow>) returns (range: Option<(Time, Time)>)
    requires LegacyOk(legacy)
    ensures range.Some? ==> Civil(range.value.0) && Civil(range.value.1) && !Before(range.value.1, range.value.0)
    ensures range.Some? ==> exists i, j :: 0 <= i < |legacy| && 0 <= j < |legacy|
                                           && legacy[i].at == Some(range.value.0) && legacy[j].at == Some(range.value.1)
    ensures forall i :: 0 <= i < |legacy| && legacy[i].at.Some? ==>
              range.Some? && Within(range.value.0, range.value.1, legacy[i].at.value)
  {
    range := None;
    for n := 0 to |legacy|
      invariant range.Some? ==> Civil(range.value.0) && Civil(range.value.1) && !Before(range.value.1, range.value.0)
      invariant range.Some? ==> exists i, j :: 0 <= i < n && 0 <= j < n
                                               && legacy[i].at == Some(range.value.0) && legacy[j].at == Some(range.value.1)
      invariant forall i :: 0 <= i < n && legacy[i].at.Some? ==>
                  range.Some? && Within(range.value.0, range.value.1, legacy[i].at.value)
    {
      var at := legacy[n].at;
      if at.Some? {
        range := if range.None? then Some((at.value, at.value))
                 else Some((if Before(at.value, range.value.0) then at.value else range.value.0,
                            if Before(range.value.1, at.value) then at.value else range.value.1));
      }
    }
  }

  function Stamps(legacy: seq<LegacyRow>, now: Time): seq<Row> {
    seq(|legacy|, i requires 0 <= i < |legacy| => Stamped(legacy[i], now))
  }

  /** A partition that expires ends before the cutoff's day. */
  lemma DoomedIsPast(registry: map<Leaf, Entry>, n: Leaf, cutoff: Time, now: Time)
    requires RegistryOk(registry) && n in Doomed(registry, cutoff) && Civil(cutoff) && Civil(now) && !Before(now, cutoff)
    ensures Index(n.month) < Index(now)
  {
    var p := registry[n].spec;
    MonthIsInterval(Index(p.start), now);
    assert p.start == FirstOf(Index(p.start));
  }

  lemma CurrentMonthIsListed(now: Time, months: seq<Time>, r: Row)
    requires Civil(now) && Civil(r.at) && Index(now) <= Index(r.at) <= Index(now) + 1 && Settles(now, r)
    requires var a, b := Restarted(now, Index(now)), Restarted(now, Index(AddMonth(now))); ListsMonths(months, Min(a, b), Max(a, b))
    ensures MonthOf(r.at) in months
  {
    AddMonthIsCivil(now);
    assert Index(now) == 10 ==> now.month == 11;
    assert Index(r.at) == Index(now) + 1 ==> Restarted(now, Index(AddMonth(now))) >= Index(r.at);
    ListHasMonth(months, Min(Index(now), Restarted(now, Index(AddMonth(now)))), Max(Index(now), Restarted(now, Index(AddMonth(now)))), r.at);
  }

  class PartitionedLogs {
    var leaves: map<Leaf, Spec>
    var registry: map<Leaf, Entry>
    var rows: seq<Row>

    ghost predicate Valid()
      reads this
    {
      AllNamed(leaves) && RegistryOk(registry) && AllHoused(rows, leaves)
    }

    constructor ()
      ensures Valid() && leaves == map[] && registry == map[] && rows == []
    {
      leaves, registry, rows := map[], map[], [];
    }

    /** CREATE TABLE IF NOT EXISTS and the registry upsert, which leaves dropped_at as it is. */
    method CreatePartition(now: Time, surface: Surface, month: Time)
      requires Valid() && Civil(now) && Civil(month)
      modifies this
      ensures Valid() && rows == old(rows)
      ensures var p := MakeSpec(now, surface, month); var name := Leaf(surface, MonthStart(now, month));
        && leaves == (if name in old(leaves) then old(leaves) else old(leaves)[name := p])
        && registry == old(registry)[name := Entry(p, name in old(registry) && old(registry)[name].dropped)]
      ensures SameMarks(old(registry), registry)
      ensures var p := MakeSpec(now, surface, month); (p.autoDrop <==> surface == Internal) && (p.archiveRequired <==> surface == Business)
    {
      var p := MakeSpec(now, surface, month);
      var name := Leaf(surface, p.start);
      if name !in leaves { leaves := leaves[name := p]; }
      registry := registry[name := Entry(p, name in registry && registry[name].dropped)];
    }

    method EnsureMonth(now: Time, month: Time)
      requires Valid() && Civil(now) && Civil(month)
      modifies this
      ensures Valid() && rows == old(rows) && Extends(old(leaves), leaves)
      ensures leaves.Keys == old(leaves).Keys + LeavesOf(MonthStart(now, month)) && SameMarks(old(registry), registry)
    {
      CreatePartition(now, Business, month);
      CreatePartition(now, Internal, month);
      CreatePartition(now, Unknown, month);
    }

    method EnsureMonthlyPartitions(now: Time, months: seq<Time>)
      requires Valid() && Civil(now) && AllCivil(months)
      modifies this
      ensures Valid() && rows == old(rows) && Extends(old(leaves), leaves)
      ensures leaves.Keys == old(leaves).Keys + LeavesFor(now, Starts(now, months)) && SameMarks(old(registry), registry)
    {
      var starts := UniqueMonthStarts(now, months);
      ghost var done: set<Time> := {};
      for i := 0 to |starts|
        invariant Valid() && rows == old(rows) && Extends(old(leaves), leaves)
        invariant forall t :: t in done <==> t in starts[..i]
        invariant leaves.Keys == old(leaves).Keys + LeavesFor(now, done) && SameMarks(old(registry), registry)
      {
        LeavesOneMore(now, done, starts[i]);
        assert starts[..i + 1] == starts[..i] + [starts[i]];
        EnsureMonth(now, starts[i]);
        done := done + {starts[i]};
      }
      assert starts[..|starts|] == starts;
      assert done == Starts(now, months);
    }

    /** A row reaches the leaf of its surface and month, or is refused. */
    method Insert(r: Row) returns (ok: bool)
      requires Valid() && Civil(r.at)
      modifies this`rows
      ensures Valid() && ok == (exists n :: n in leaves && leaves[n].surface == r.surface && Contains(leaves[n], r.at))
      ensures rows == if ok then old(rows) + [r] else old(rows)
    {
      ok := Home(r) in leaves;
      forall n | n in leaves ensures n == Home(r) <==> leaves[n].surface == r.surface && Contains(leaves[n], r.at) {
        HomeHolds(n, leaves[n], r);
      }
      if ok { rows := rows + [r]; }
    }

    /** DROP TABLE IF EXISTS, and the registry's mark. */
    method DropPartition(name: Leaf)
      requires name in registry
      modifies this
      ensures leaves == old(leaves) - {name} && rows == Remaining(old(rows), {name})
      ensures registry == old(registry)[name := old(registry)[name].(dropped := true)]
    {
      leaves := leaves - {name};
      rows := Remaining(rows, {name});
      registry := registry[name := registry[name].(dropped := true)];
    }

    method DropExpiredPartitions(cutoff: Time)
      requires Valid() && Civil(cutoff)
      modifies this
      ensures Valid()
      ensures var gone := Doomed(old(registry), cutoff);
        && leaves == old(leaves) - gone && rows == Remaining(old(rows), gone)
        && registry == MarkedDropped(old(registry), gone)
      ensures forall r: Row :: Civil(r.at) ==>
        multiset(rows)[r] == if Expires(old(registry), r, cutoff) then 0 else multiset(old(rows))[r]
    {
      var due := set n | n in registry && Expired(registry[n], cutoff);
      ghost var gone := {};
      RemainingWithoutLoss(rows);
      while due != {}
        invariant due !! gone && due + gone == Doomed(old(registry), cutoff)
        invariant leaves == old(leaves) - gone && rows == Remaining(old(rows), gone)
        invariant registry == MarkedDropped(old(registry), gone)
        decreases due
      {
        var name :| name in due;
        RemainingTwice(old(rows), gone, {name});
        MarkOneMore(old(registry), gone, name);
        DropPartition(name);
        due := due - {name};
        gone := gone + {name};
      }
      RemainingStaysHoused(old(rows), gone, old(leaves));
      MarkedStaysOk(old(registry), gone);
      forall r: Row | Civil(r.at)
        ensures multiset(rows)[r] == if Expires(old(registry), r, cutoff) then 0 else multiset(old(rows))[r]
      {
        ExpiresIff(old(registry), r, cutoff);
        RemainingCounts(old(rows), gone, r);
      }
    }

    /** After maintenance a row of this month or the next is accepted. */
    method RunPartitionMaintenance(now: Time, cutoff: Time)
      requires Valid() && Civil(now) && Civil(cutoff) && !Before(now, cutoff)
      modifies this
      ensures Valid()
      ensures forall r: Row :: Civil(r.at) && Index(now) <= Index(r.at) <= Index(now) + 1 && Settles(now, r) ==> Home(r) in leaves
      ensures forall r: Row :: Civil(r.at) && !(r.surface == Internal && Before(r.at, cutoff)) ==>
                multiset(rows)[r] == multiset(old(rows))[r]
    {
      var months := MonthsOf(now, now, AddMonth(now));
      EnsureMonthlyPartitions(now, months);
      ghost var entries := registry;
      DropExpiredPartitions(cutoff);
      forall r: Row | Civil(r.at) && Index(now) <= Index(r.at) <= Index(now) + 1 && Settles(now, r) ensures Home(r) in leaves {
        CurrentMonthIsListed(now, months, r);
        MonthGetsLeaves(now, months, r);
        if Home(r) in Doomed(entries, cutoff) { DoomedIsPast(entries, Home(r), cutoff, now); }
      }
      forall r: Row | Civil(r.at) && !(r.surface == Internal && Before(r.at, cutoff))
        ensures multiset(rows)[r] == multiset(old(rows))[r]
      {
        OnlyOldRowsGo(old(rows), entries, cutoff, r);
      }
    }

    /** INSERT ... SELECT: one row without a partition refuses them all. */
    method CopyAll(legacy: seq<LegacyRow>, now: Time) returns (ok: bool)
      requires Valid() && Civil(now) && LegacyOk(legacy)
      modifies this`rows
      ensures Valid() && rows == if ok then old(rows) + Stamps(legacy, now) else old(rows)
      ensures ok <==> forall i :: 0 <= i < |legacy| ==> Home(Stamped(legacy[i], now)) in leaves
    {
      ok := forall i :: 0 <= i < |legacy| ==> Home(Stamped(legacy[i], now)) in leaves;
      if ok { rows := rows + Stamps(legacy, now); }
    }

    /** The old table has no partitions. Migration copies all of it, each row into the one partition of its
        month, exactly when no row lies in January of year 1, which is taken for the current month. */
    method MigrateUnpartitioned(now: Time, legacy: seq<LegacyRow>) returns (ok: bool)
      requires Valid() && Civil(now) && LegacyOk(legacy) && leaves == map[]
      modifies this
      ensures Valid() && rows == if ok then old(rows) + Stamps(legacy, now) else old(rows)
      ensures ok <==> forall i :: 0 <= i < |legacy| ==> Settles(now, Stamped(legacy[i], now))
    {
      var months := MonthsToMigrate(now, legacy);
      EnsureMonthlyPartitions(now, months);
      ok := CopyAll(legacy, now);
      if forall i :: 0 <= i < |legacy| ==> Settles(now, Stamped(legacy[i], now)) {
        forall i | 0 <= i < |legacy| ensures Home(Stamped(legacy[i], now)) in leaves {
          MonthGetsLeaves(now, months, Stamped(legacy[i], now));
        }
      } else {
        var i :| 0 <= i < |legacy| && !Settles(now, Stamped(legacy[i], now));
        ZeroMonthGetsNone(now, months, Stamped(legacy[i], now));
      }
    }
  }
}
