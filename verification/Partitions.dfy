/** The monthly partitions of the readings table: the month arithmetic and its loops, the names the bounds
    are recorded in, and the job that moves the window on. */
module Partitions {
  import opened Text
  import opened Wrappers
  import opened Numbers

  // ---------------------------------------------------------------- months

  /** The first day of a month, as `datetime.date` holds it. */
  datatype Month = Month(year: int, number: int) {
    predicate Valid() { 1 <= year <= 9999 && 1 <= number <= 12 }
  }

  const FIRST := 12
  const LAST := 119_999

  /** Months counted on one line. */
  function Index(m: Month): int {
    12 * m.year + m.number - 1
  }

  function FromIndex(n: int): (m: Month)
    requires FIRST <= n <= LAST
    ensures m.Valid() && Index(m) == n
  {
    Month(n / 12, n % 12 + 1)
  }

  lemma IndexIsInjective(a: Month, b: Month)
    requires a.Valid() && b.Valid()
    ensures FIRST <= Index(a) <= LAST
    ensures Index(a) == Index(b) <==> a == b
    ensures FromIndex(Index(a)) == a
  {
  }

  /** `None` is the `ValueError` of a year outside 1 to 9999. */
  function NextMonth(m: Month): Option<Month> {
    var next := if m.number == 12 then Month(m.year + 1, 1) else Month(m.year, m.number + 1);
    if next.Valid() then Some(next) else None
  }

  function PreviousMonth(m: Month): Option<Month> {
    var previous := if m.number == 1 then Month(m.year - 1, 12) else Month(m.year, m.number - 1);
    if previous.Valid() then Some(previous) else None
  }

  /** The stepping loop is arithmetic on the month line, for positive and negative counts, and raises
      exactly when the target lies outside the calendar. */
  method AddMonths(m: Month, count: int) returns (r: Option<Month>)
    requires m.Valid()
    ensures r.Some? <==> FIRST <= Index(m) + count <= LAST
    ensures r.Some? ==> r.value == FromIndex(Index(m) + count)
  {
    var result := m;
    var steps := if count >= 0 then count else -count;
    var k := 0;
    while k < steps
      invariant 0 <= k <= steps && result.Valid()
      invariant Index(result) == Index(m) + (if count >= 0 then k else -k)
    {
      var stepped := if count >= 0 then NextMonth(result) else PreviousMonth(result);
      if stepped.None? {
        return None;
      }
      result := stepped.value;
      k := k + 1;
    }
    IndexIsInjective(result, result);
    r := Some(result);
  }

  // ---------------------------------------------------------------- bounds

  datatype Date = Date(year: int, number: int, day: int)

  predicate Earlier(a: Date, b: Date) {
    || a.year < b.year
    || (a.year == b.year && a.number < b.number)
    || (a.year == b.year && a.number == b.number && a.day < b.day)
  }

  function FirstDay(m: Month): Date {
    Date(m.year, m.number, 1)
  }

  function MonthOf(d: Date): Month {
    Month(d.year, d.number)
  }

  /** `FOR VALUES FROM ('first') TO ('first of the next month')`. */
  predicate Covers(m: Month, d: Date) {
    !Earlier(d, FirstDay(m)) && NextMonth(m).Some? && Earlier(d, FirstDay(NextMonth(m).value))
  }

  /** The ranges tile the calendar: a date lies in the partition of its own month and in no other; only the
      last month of the calendar has no range. */
  lemma RangesTile(m: Month, d: Date)
    requires m.Valid() && MonthOf(d).Valid() && 1 <= d.day <= 31
    ensures Covers(m, d) <==> m == MonthOf(d) && Index(m) < LAST
  {
  }

  // ---------------------------------------------------------------- names

  const TABLE := "sensor_readings"
  const DEFAULT := TABLE + "_default"

  function Pow10(w: nat): nat {
    if w == 0 then 1 else 10 * Pow10(w - 1)
  }

  /** A number printed with leading zeros. */
  function Padded(n: nat, width: nat): (r: string)
    ensures |r| == width && forall k :: 0 <= k < |r| ==> IsDigit(r[k])
  {
    if width == 0 then [] else Padded(n / 10, width - 1) + [Digit(n % 10)]
  }

  lemma {:induction false} NumberOfPadded(n: nat, width: nat)
    requires n < Pow10(width)
    ensures Number(Padded(n, width)) == n
    decreases width
  {
    if width > 0 {
      NumberOfPadded(n / 10, width - 1);
      assert Padded(n, width)[..width - 1] == Padded(n / 10, width - 1);
    }
  }

  lemma {:induction false} PaddedOfNumber(s: string)
    requires forall k :: 0 <= k < |s| ==> IsDigit(s[k])
    ensures Number(s) < Pow10(|s|) && Padded(Number(s), |s|) == s
  {
    if s != [] {
      var front, last := s[..|s| - 1], s[|s| - 1];
      PaddedOfNumber(front);
      assert IsDigit(last);
      assert s == front + [last];
      assert Number(s) / 10 == Number(front) && Digit(Number(s) % 10) == last;
    }
  }

  function Suffix(m: Month): string
    requires m.Valid()
  {
    Padded(m.year, 4) + Padded(m.number, 2)
  }

  function Name(m: Month): string
    requires m.Valid()
  {
    TABLE + "_" + Suffix(m)
  }

  /** What reading a name comes to: not a monthly partition, the month it holds, or the `ValueError` of
      six digits that are no month. */
  datatype Parsed = NotOurs | Holds(month: Month) | Raises

  predicate AllDigits(s: string) {
    forall k :: 0 <= k < |s| ==> IsDigit(s[k])
  }

  function MonthFromName(relname: string): Parsed {
    var prefix := TABLE + "_";
    if !(prefix <= relname) then NotOurs
    else
      var suffix := relname[|prefix|..];
      if |suffix| != 6 || !AllDigits(suffix) then NotOurs
      else
        var m := Month(Number(suffix[..4]), Number(suffix[4..]));
        if m.Valid() then Holds(m) else Raises
  }

  lemma SuffixRoundTrip(m: Month)
    requires m.Valid()
    ensures |Suffix(m)| == 6 && AllDigits(Suffix(m))
    ensures Number(Suffix(m)[..4]) == m.year && Number(Suffix(m)[4..]) == m.number
  {
    assert Pow10(4) == 10_000 && Pow10(2) == 100;
    NumberOfPadded(m.year, 4);
    NumberOfPadded(m.number, 2);
    assert Suffix(m)[..4] == Padded(m.year, 4) && Suffix(m)[4..] == Padded(m.number, 2);
  }

  /** Printing and parsing are inverse to each other: a name holds a month exactly when it is that month's
      name, so two months never share a name. */
  lemma NamesRoundTrip(relname: string, m: Month)
    requires m.Valid()
    ensures MonthFromName(Name(m)) == Holds(m)
    ensures MonthFromName(relname) == Holds(m) <==> relname == Name(m)
  {
    var prefix := TABLE + "_";
    SuffixRoundTrip(m);
    assert Name(m)[|prefix|..] == Suffix(m);
    if MonthFromName(relname) == Holds(m) {
      var suffix := relname[|prefix|..];
      PaddedOfNumber(suffix[..4]);
      PaddedOfNumber(suffix[4..]);
      assert suffix == suffix[..4] + suffix[4..];
      assert relname == prefix + suffix;
    }
  }

  /** Exactly when reading a name raises instead of answering: six digits after the prefix that spell a
      year of zero or a month outside one to twelve. */
  lemma ParseRaisesExactly(relname: string)
    ensures MonthFromName(relname) == Raises <==>
      exists year: nat, number: nat ::
        (year < 10_000 && number < 100 && !(year >= 1 && 1 <= number <= 12)
         && relname == TABLE + "_" + Padded(year, 4) + Padded(number, 2))
  {
    if MonthFromName(relname) == Raises {
      RaisingName(relname);
    }
    forall year: nat, number: nat | year < 10_000 && number < 100 && !(year >= 1 && 1 <= number <= 12)
      ensures MonthFromName(TABLE + "_" + Padded(year, 4) + Padded(number, 2)) == Raises
    {
      NoMonthRaises(year, number);
    }
  }

  lemma RaisingName(relname: string)
    requires MonthFromName(relname) == Raises
    ensures exists year: nat, number: nat ::
      (year < 10_000 && number < 100 && !(year >= 1 && 1 <= number <= 12)
       && relname == TABLE + "_" + Padded(year, 4) + Padded(number, 2))
  {
    var prefix := TABLE + "_";
    var suffix := relname[|prefix|..];
    var year, number := Number(suffix[..4]), Number(suffix[4..]);
    assert Pow10(4) == 10_000 && Pow10(2) == 100;
    PaddedOfNumber(suffix[..4]);
    PaddedOfNumber(suffix[4..]);
    assert suffix == suffix[..4] + suffix[4..];
    assert relname == prefix + Padded(year, 4) + Padded(number, 2);
  }

  lemma NoMonthRaises(year: nat, number: nat)
    requires year < 10_000 && number < 100 && !(year >= 1 && 1 <= number <= 12)
    ensures MonthFromName(TABLE + "_" + Padded(year, 4) + Padded(number, 2)) == Raises
  {
    var prefix, suffix := TABLE + "_", Padded(year, 4) + Padded(number, 2);
    var relname := TABLE + "_" + Padded(year, 4) + Padded(number, 2);
    assert Pow10(4) == 10_000 && Pow10(2) == 100;
    assert relname == prefix + suffix && relname[|prefix|..] == suffix;
    assert suffix[..4] == Padded(year, 4) && suffix[4..] == Padded(number, 2);
    NumberOfPadded(year, 4);
    NumberOfPadded(number, 2);
  }

  /** The table that stops the job: its name has the thirteenth month. */
  lemma ThirteenthMonthRaises()
    ensures MonthFromName("sensor_readings_202613") == Raises
  {
    var name := "sensor_readings_202613";
    assert name[|TABLE + "_"|..] == "202613" && "202613"[..4] == "2026" && "202613"[4..] == "13";
    assert "13"[..1] == "1" && "1"[..0] == "" && Number("1") == 1;
    assert Number("13") == 13;
  }

  lemma NameOfAMonth()
    ensures Name(Month(2026, 3)) == "sensor_readings_202603"
    ensures MonthFromName("sensor_readings_202603") == Holds(Month(2026, 3))
  {
    var m := Month(2026, 3);
    NamesRoundTrip(Name(m), m);
    PaddedYear();
    PaddedMonth();
  }

  lemma PaddedMonth()
    ensures Padded(3, 2) == "03"
  {
    assert Padded(0, 1) == "0";
  }

  lemma PaddedYear()
    ensures Padded(2026, 4) == "2026"
  {
    assert Padded(2, 1) == "2";
    assert Padded(20, 2) == "20";
    assert Padded(202, 3) == "202";
  }

  lemma DefaultIsNotAMonth()
    ensures MonthFromName(DEFAULT) == NotOurs
  {
    assert DEFAULT[|TABLE + "_"|..] == "default";
    assert |"default"| == 7;
  }

  // ---------------------------------------------------------------- the job

  /** The months that have a partition, by index. */
  ghost function Months(present: set<string>): set<int> {
    set n | FIRST <= n <= LAST && Name(FromIndex(n)) in present
  }

  ghost function Block(low: int, high: int): (r: set<int>)
    ensures forall n :: n in r <==> low <= n <= high
    decreases high - low + 1
  {
    if low > high then {} else Block(low, high - 1) + {high}
  }

  /** The months the retention window still covers. */
  ghost function From(months: set<int>, limit: int): set<int> {
    set n | n in months && n >= limit
  }

  /** A month's name adds that month and no other. */
  lemma NameAddsItsMonth(present: set<string>, m: Month)
    requires m.Valid()
    ensures Months(present + {Name(m)}) == Months(present) + {Index(m)}
    ensures Index(m) in Months(present) <==> Name(m) in present
  {
    IndexIsInjective(m, m);
    forall n | FIRST <= n <= LAST ensures Name(FromIndex(n)) == Name(m) <==> n == Index(m) {
      NamesRoundTrip(Name(m), FromIndex(n));
      NamesRoundTrip(Name(m), m);
      IndexIsInjective(FromIndex(n), m);
    }
  }

  lemma DefaultAddsNoMonth(present: set<string>)
    ensures Months(present + {DEFAULT}) == Months(present)
  {
    DefaultIsNotAMonth();
    forall n | FIRST <= n <= LAST ensures Name(FromIndex(n)) != DEFAULT {
      NamesRoundTrip(DEFAULT, FromIndex(n));
    }
  }

  /** No present name makes the parser raise. */
  predicate Readable(names: seq<string>) {
    forall k :: 0 <= k < |names| ==> MonthFromName(names[k]) != Raises
  }

  /** `working` is `present` with the catch-all and the `k` months from `start` on, `created` those of them
      that were missing. */
  ghost predicate Extended(present: set<string>, working: set<string>, created: set<int>, start: int, k: nat) {
    && created == Block(start, start + k - 1) - Months(present)
    && Months(working) == Months(present) + Block(start, start + k - 1)
    && DEFAULT in working && present <= working
  }

  lemma ExtendedByOne(present: set<string>, working: set<string>, created: set<int>, start: int, k: nat, m: Month)
    requires Extended(present, working, created, start, k) && m.Valid() && Index(m) == start + k
    ensures Extended(present, working + {Name(m)},
                     if Name(m) in working then created else created + {start + k}, start, k + 1)
  {
    NameAddsItsMonth(working, m);
    assert start + k !in Block(start, start + k - 1);
    assert Block(start, start + k) == Block(start, start + k - 1) + {start + k};
  }

  class PartitionedTable {
    var present: set<string>

    constructor (present: set<string>)
      ensures this.present == present
    {
      this.present := present;
    }

    /** `ensure_telemetry_partitions`: the catch-all first, then the months of the window that are missing.
        Months outside the calendar raise; the caller's transaction then leaves nothing behind. */
    method Ensure(today: Month, ahead: nat) returns (ok: bool, created: set<int>)
      requires today.Valid()
      modifies this
      ensures ok <==> Index(today) + ahead < LAST
      ensures !ok ==> present == old(present)
      ensures ok ==>
        && Months(present) == Months(old(present)) + Block(Index(today), Index(today) + ahead)
        && created == Block(Index(today), Index(today) + ahead) - Months(old(present))
        && DEFAULT in present
        && (forall name :: name in old(present) ==> name in present)
    {
      var working := present + {DEFAULT};
      created := {};
      DefaultAddsNoMonth(present);
      var start := Index(today);
      var k := 0;
      while k <= ahead
        invariant 0 <= k <= ahead + 1
        invariant k > 0 ==> start + k - 1 < LAST
        invariant Extended(present, working, created, start, k)
        invariant present == old(present)
      {
        var month := AddMonths(today, k);
        if month.None? || NextMonth(month.value).None? {
          return false, {};
        }
        var name := Name(month.value);
        ExtendedByOne(present, working, created, start, k, month.value);
        if name !in working {
          created := created + {start + k};
        }
        working := working + {name};
        k := k + 1;
      }
      present := working;
      ok := true;
    }

    /** `existing_partitions`: the catalogue's listing. */
    method Existing() returns (names: seq<string>)
      ensures forall name :: name in names <==> name in present
    {
      names := [];
      var left := present;
      while left != {}
        invariant left <= present
        invariant forall name :: name in present <==> name in names || name in left
        decreases left
      {
        SomeName(left);
        var name :| name in left;
        names := names + [name];
        left := left - {name};
      }
    }

    /** One tick of the job, in one transaction: the window is extended, then what it no longer covers is
        retired. */
    method Tick(today: Month, ahead: nat, retention: nat) returns (ok: bool)
      requires today.Valid()
      modifies this
      ensures ok ==> Months(present) == Ticked(Months(old(present)), Index(today), ahead, retention)
      ensures ok ==> DEFAULT in present
      ensures !ok ==> present == old(present)
    {
      var before := present;
      var ensured, created := Ensure(today, ahead);
      if !ensured {
        return false;
      }
      ghost var extended := present;
      var listing := Existing();
      var retired, dropped := DropExpired(today, retention, listing);
      if !retired {
        present := before;
        return false;
      }
      DefaultStays(extended, present);
      ok := true;
    }

    /** `drop_expired_partitions` over the catalogue's listing.  It raises when the retention window leaves
        the calendar, a listed name cannot be read or the last month of the calendar has a partition;
        otherwise it retires exactly the months entirely before the cut-off, and no other table. */
    method DropExpired(today: Month, retention: nat, listing: seq<string>) returns (ok: bool, dropped: seq<string>)
      requires today.Valid()
      requires forall name :: name in listing <==> name in present
      modifies this
      ensures ok <==> FIRST <= Index(today) - retention && Readable(listing) && LAST !in Months(old(present))
      ensures !ok ==> present == old(present)
      ensures ok ==>
        && Months(present) == From(Months(old(present)), Index(today) - retention)
        && (forall name :: name in dropped <==> name in old(present) && name !in present)
        && KeepsOthers(old(present), present)
    {
      var back: int := retention;
      var cutoff := AddMonths(today, -back);
      if cutoff.None? {
        return false, [];
      }
      ok, dropped := ExpiredPartitions(listing, cutoff.value);
      LastMonth(present);
      if !ok {
        return false, [];
      }
      var retired := set name | name in dropped;
      RetiredMonths(present, retired, Index(cutoff.value));
      present := present - retired;
    }
  }

  /** Every table that is no month stays. */
  ghost predicate KeepsOthers(before: set<string>, after: set<string>) {
    forall name :: name in before && !MonthFromName(name).Holds? ==> name in after
  }

  lemma DefaultStays(before: set<string>, after: set<string>)
    requires DEFAULT in before && KeepsOthers(before, after)
    ensures DEFAULT in after
  {
    DefaultIsNotAMonth();
  }

  lemma SomeName(names: set<string>)
    ensures names != {} ==> exists name :: name in names
  {
    if forall name :: name !in names {
      assert names == {};
    }
  }

  /** `expired_partitions`: the listed names of months entirely before the cut-off, in listing order; it
      raises when a name cannot be read or a month has no successor. */
  method ExpiredPartitions(listing: seq<string>, cutoff: Month) returns (ok: bool, expired: seq<string>)
    ensures ok <==> Readable(listing) && forall name :: name in listing ==> !IsLast(name)
    ensures ok ==> forall name :: name in expired <==> name in listing && Expired(name, Index(cutoff))
  {
    expired := [];
    var k := 0;
    while k < |listing|
      invariant 0 <= k <= |listing|
      invariant Readable(listing[..k]) && forall name :: name in listing[..k] ==> !IsLast(name)
      invariant forall name :: name in expired <==> name in listing[..k] && Expired(name, Index(cutoff))
    {
      var name := listing[k];
      assert listing[..k + 1] == listing[..k] + [name];
      var parsed := MonthFromName(name);
      if parsed.Raises? {
        return false, [];
      }
      if parsed.Holds? {
        if NextMonth(parsed.month).None? {
          assert IsLast(name);
          return false, [];
        }
        if Index(NextMonth(parsed.month).value) <= Index(cutoff) {
          expired := expired + [name];
        }
      }
      k := k + 1;
    }
    assert listing[..k] == listing;
    ok := true;
  }

  lemma MonthIsPresent(present: set<string>, name: string)
    requires name in present && MonthFromName(name).Holds?
    ensures Index(MonthFromName(name).month) in Months(present)
  {
    var m := MonthFromName(name).month;
    IndexIsInjective(m, m);
    NamesRoundTrip(name, m);
  }

  lemma LastMonth(present: set<string>)
    ensures LAST in Months(present) <==> exists name :: name in present && IsLast(name)
  {
    var last := FromIndex(LAST);
    NamesRoundTrip(Name(last), last);
    if name :| name in present && IsLast(name) {
      MonthIsPresent(present, name);
    }
  }

  lemma RetiredMonths(present: set<string>, dropped: set<string>, limit: int)
    requires forall name :: name in dropped <==> name in present && Expired(name, limit)
    ensures Months(present - dropped) == From(Months(present), limit)
  {
    forall n | FIRST <= n <= LAST
      ensures n in Months(present - dropped) <==> n in Months(present) && n >= limit
    {
      NamesRoundTrip(Name(FromIndex(n)), FromIndex(n));
    }
  }

  predicate IsLast(name: string) {
    MonthFromName(name).Holds? && Index(MonthFromName(name).month) == LAST
  }

  /** The name of a month entirely before the cut-off. */
  predicate Expired(name: string, limit: int) {
    MonthFromName(name).Holds? && Index(MonthFromName(name).month) < limit
  }

  // ---------------------------------------------------------------- runs of ticks

  /** What one tick does to the months; `PartitionedTable.Tick` is proved to do exactly this. */
  ghost function Ticked(months: set<int>, today: int, ahead: nat, retention: nat): set<int> {
    From(months + Block(today, today + ahead), today - retention)
  }

  /** No tick drops what it creates. */
  lemma TickKeepsWhatItCreates(months: set<int>, today: int, ahead: nat, retention: nat)
    ensures Block(today, today + ahead) <= Ticked(months, today, ahead, retention)
  {
  }

  /** The days of the ticks: each no earlier than the last, and at most `ahead + 1` months later. */
  ghost predicate Regular(ticks: seq<int>, ahead: nat) {
    forall k :: 0 < k < |ticks| ==> ticks[k - 1] <= ticks[k] <= ticks[k - 1] + ahead + 1
  }

  ghost function After(ticks: seq<int>, ahead: nat, retention: nat): set<int> {
    if ticks == [] then {}
    else Ticked(After(ticks[..|ticks| - 1], ahead, retention), ticks[|ticks| - 1], ahead, retention)
  }

  /** Over any regular run of ticks on a fresh table, the months present are one contiguous block, from the
      cut-off, or the first month ever created if that is later, to the horizon. */
  lemma {:induction false} MonthsStayContiguous(ticks: seq<int>, ahead: nat, retention: nat)
    requires ticks != [] && Regular(ticks, ahead)
    ensures
      var today := ticks[|ticks| - 1];
      ticks[0] <= today && After(ticks, ahead, retention) == Block(Max(ticks[0], today - retention), today + ahead)
  {
    var k := |ticks| - 1;
    if k == 0 {
      assert ticks[..0] == [];
    } else {
      MonthsStayContiguous(ticks[..k], ahead, retention);
      assert ticks[..k][|ticks[..k]| - 1] == ticks[k - 1];
    }
  }

  ghost predicate Contiguous(months: set<int>) {
    forall a, b, n :: a in months && b in months && a <= n <= b ==> n in months
  }

  /** Exactly when one tick keeps a block contiguous: it comes at most one month past the horizon, or so
      late that the whole block is retired. */
  lemma TickKeepsContiguousExactly(low: int, high: int, today: int, ahead: nat, retention: nat)
    requires low <= high && today + ahead >= high
    ensures Contiguous(Ticked(Block(low, high), today, ahead, retention)) <==>
      today <= high + 1 || today - retention > high
  {
    var months := Ticked(Block(low, high), today, ahead, retention);
    if today > high + 1 && today - retention <= high {
      assert high in months && today in months && high + 1 !in months;
    }
  }
}
