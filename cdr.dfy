/**
 * The call-detail-record endpoints: the filtered, newest-first, paged list;
 * the count under the same filters; the unfiltered statistics; and the
 * recent-calls widget. The CDR table is a sequence of rows in storage
 * order; `call_date` is a whole number of seconds since 1970-01-01 00:00
 * (naive UTC).
 */
module Cdr {
  import opened Wrappers
  import opened Text
  import opened Sql
  import Ordering

  datatype CdrRecord = CdrRecord(
    id: int, callDate: int, clid: Option<string>, src: Option<string>, dst: Option<string>,
    channel: Option<string>, dstChannel: Option<string>, duration: Option<int>, billsec: Option<int>,
    disposition: Option<string>, uniqueId: Option<string>)

  /** The optional query parameters shared by the list and the count. */
  datatype CdrFilter = CdrFilter(
    src: Option<string>, dst: Option<string>, disposition: Option<string>,
    dateFrom: Option<int>, dateTo: Option<int>)

  const NoFilter := CdrFilter(None, None, None, None, None)

  function CallDate(r: CdrRecord): int { r.callDate }

  /** `if src:` on an optional string: present and not empty. */
  predicate Given(s: Option<string>) { s.Some? && s.value != "" }

  /** `column.ilike(f"%{f}%")`; a NULL column never matches. */
  predicate ColumnContains(column: Option<string>, f: string) {
    column.Some? && ILike(column.value, "%" + f + "%")
  }

  /** A row passes every filter that was supplied; an absent or empty one imposes nothing. */
  predicate Matches(r: CdrRecord, f: CdrFilter) {
    && (Given(f.src) ==> ColumnContains(r.src, f.src.value))
    && (Given(f.dst) ==> ColumnContains(r.dst, f.dst.value))
    && (Given(f.disposition) ==> r.disposition == Some(Upper(f.disposition.value)))
    && (f.dateFrom.Some? ==> r.callDate >= f.dateFrom.value)
    && (f.dateTo.Some? ==> r.callDate <= f.dateTo.value)
  }

  /** The filtered query, before ordering. */
  function Matching(table: seq<CdrRecord>, f: CdrFilter): (r: seq<CdrRecord>)
    ensures forall i :: 0 <= i < |r| ==> r[i] in table && Matches(r[i], f)
    ensures forall i :: 0 <= i < |table| && Matches(table[i], f) ==> table[i] in r
  {
    Select(table, x => Matches(x, f))
  }

  /** `order_by(CDR.call_date.desc())`, rows with equal dates in storage order. */
  function Newest(rows: seq<CdrRecord>): seq<CdrRecord> {
    Ordering.SortDesc(rows, CallDate)
  }

  /** GET /api/cdr/: the matching rows, newest first, `offset` skipped, at most `limit` kept. */
  function ListCdr(table: seq<CdrRecord>, f: CdrFilter, limit: int, offset: int): (r: Reply<seq<CdrRecord>>)
    ensures r.Fail? <==> !ValidPage(limit, offset)
    ensures r.Fail? ==> r.status == Unprocessable
  {
    if !ValidPage(limit, offset) then Fail(Unprocessable, "limit must be 1..500 and offset at least 0")
    else Ok(Window(Newest(Matching(table, f)), offset, limit))
  }

  /** GET /api/cdr/count: the number of rows the same filters match. */
  function CountCdr(table: seq<CdrRecord>, f: CdrFilter): (n: nat)
    ensures n <= |table|
  {
    |Matching(table, f)|
  }

  /** Every listed row matches the filter, the list is newest first and no longer than limit or the count. */
  lemma {:induction false} ListCdrSound(table: seq<CdrRecord>, f: CdrFilter, limit: int, offset: int)
    requires ValidPage(limit, offset)
    ensures var page := ListCdr(table, f, limit, offset).value;
      && |page| <= limit && |page| <= CountCdr(table, f)
      && (forall i :: 0 <= i < |page| ==> page[i] in table && Matches(page[i], f))
      && Ordering.SortedDesc(page, CallDate)
  {
    var m := Matching(table, f);
    var sorted := Newest(m);
    Ordering.SortDescSortedPermutation(m, CallDate);
    var page := Window(sorted, offset, limit);
    forall i | 0 <= i < |page| ensures page[i] in table && Matches(page[i], f) {
      assert page[i] == sorted[offset + i];
      assert sorted[offset + i] in multiset(m);
      var j :| 0 <= j < |m| && m[j] == sorted[offset + i];
    }
    forall i, j | 0 <= i < j < |page| ensures page[i].callDate >= page[j].callDate {
      assert page[i] == sorted[offset + i] && page[j] == sorted[offset + j];
    }
  }

  /**
   * The count is the length of the whole unpaged list, which holds each
   * matching row as often as the table does and no other row.
   */
  lemma {:induction false} CountIsUnpagedList(table: seq<CdrRecord>, f: CdrFilter, x: CdrRecord)
    ensures CountCdr(table, f) == |Newest(Matching(table, f))|
    ensures multiset(Newest(Matching(table, f)))[x] == if Matches(x, f) then multiset(table)[x] else 0
  {
    Ordering.SortDescSortedPermutation(Matching(table, f), CallDate);
    SelectCounts(table, y => Matches(y, f), x);
  }

  /** The count is the list's length when one page from the start is large enough for all matches. */
  lemma {:induction false} CountIsFullList(table: seq<CdrRecord>, f: CdrFilter, limit: int)
    requires 1 <= limit <= MaxLimit && CountCdr(table, f) <= limit
    ensures ListCdr(table, f, limit, 0).Ok?
    ensures multiset(ListCdr(table, f, limit, 0).value) == multiset(Matching(table, f))
    ensures |ListCdr(table, f, limit, 0).value| == CountCdr(table, f)
  {
    var m := Matching(table, f);
    Ordering.SortDescSortedPermutation(m, CallDate);
    WindowWhole(Newest(m), limit);
  }

  /** Consecutive pages of the list tile it: page k followed by page k + 1 is the double-size page k. */
  lemma {:induction false} ListCdrPagesTile(table: seq<CdrRecord>, f: CdrFilter, limit: int, offset: int)
    requires ValidPage(limit, offset) && ValidPage(2 * limit, offset)
    ensures ListCdr(table, f, limit, offset).value + ListCdr(table, f, limit, offset + limit).value
         == ListCdr(table, f, 2 * limit, offset).value
  {
    WindowsTile(Newest(Matching(table, f)), offset, limit, limit);
  }

  /** With no filter supplied, every row matches. */
  lemma {:induction false} NoFilterKeepsAll(table: seq<CdrRecord>)
    ensures Matching(table, NoFilter) == table
    ensures CountCdr(table, NoFilter) == |table|
  {
    SelectAll(table, x => Matches(x, NoFilter));
  }

  /** A wildcard-free source filter keeps the rows whose source contains it, ignoring ASCII letter case. */
  lemma {:induction false} SourceFilterIsSubstring(r: CdrRecord, s: string)
    requires s != "" && NoWildcards(s)
    ensures Matches(r, NoFilter.(src := Some(s)))
        <==> r.src.Some? && exists i :: OccursAt(Lower(r.src.value), Lower(s), i)
  {
    if r.src.Some? {
      ContainsPattern(r.src.value, s);
    }
  }

  // ---------------------------------------------------------------- statistics

  /** A calendar date of the proleptic Gregorian calendar. */
  datatype Date = Date(year: int, month: int, day: int)

  predicate IsLeap(y: int) {
    y % 4 == 0 && (y % 100 != 0 || y % 400 == 0)
  }

  function DaysInMonth(y: int, m: int): int {
    if m == 2 then (if IsLeap(y) then 29 else 28)
    else if m == 4 || m == 6 || m == 9 || m == 11 then 30
    else 31
  }

  predicate ValidDate(d: Date) {
    1 <= d.month <= 12 && 1 <= d.day <= DaysInMonth(d.year, d.month)
  }

  /** Days from 1970-01-01 to the date, counted with years that start in March. */
  function DayNumber(d: Date): int {
    MarchFirst(ShiftedYear(d)) + MonthOffset(MonthIndex(d.month)) + d.day - 1 - 719468
  }

  /** The March-to-February year a date falls in. */
  function ShiftedYear(d: Date): int { if d.month <= 2 then d.year - 1 else d.year }

  /** Months counted from March: March is 0, February 11. */
  function MonthIndex(m: int): int { if m > 2 then m - 3 else m + 9 }

  /** Days from March 1 to the first of the month with the given index. */
  function MonthOffset(mp: int): int { (153 * mp + 2) / 5 }

  /** Days from 0000-03-01 to March 1 of year y, in 400-year eras of 146097 days. */
  function MarchFirst(y: int): int {
    var era := y / 400;
    era * 146097 + YearStart(y - era * 400)
  }

  /** Days from the start of a 400-year era to the March 1 that starts year yoe of it. */
  function YearStart(yoe: int): int {
    yoe * 365 + yoe / 4 - yoe / 100
  }

  /** The date after d. */
  function NextDay(d: Date): Date {
    if d.day < DaysInMonth(d.year, d.month) then d.(day := d.day + 1)
    else if d.month < 12 then Date(d.year, d.month + 1, 1)
    else Date(d.year + 1, 1, 1)
  }

  lemma {:induction false} EpochDay()
    ensures DayNumber(Date(1970, 1, 1)) == 0
  {
  }

  /** A March-to-February year has 366 days exactly when the February is a leap one. */
  lemma {:induction false} YearLength(y: int)
    ensures MarchFirst(y + 1) == MarchFirst(y) + (if IsLeap(y + 1) then 366 else 365)
  {
    var era := y / 400;
    var yoe := y - era * 400;
    if yoe == 399 {
      assert (y + 1) / 400 == era + 1;
      LeapShift(0, era + 1);
    } else {
      assert (y + 1) / 400 == era;
      YearStartStep(yoe);
      LeapShift(yoe + 1, era);
    }
  }

  /** Whole eras do not change whether a year is a leap year. */
  lemma {:induction false} LeapShift(yoe: int, era: int)
    ensures IsLeap(yoe + era * 400) == IsLeap(yoe)
  {
    ModShift(yoe, 4, era * 100);
    ModShift(yoe, 100, era * 4);
    ModShift(yoe, 400, era);
  }

  /** Adding whole multiples of m leaves the remainder. */
  lemma {:induction false} ModShift(a: int, m: int, k: int)
    requires m > 0
    ensures (a + m * k) % m == a % m
  {
    var q, r := a / m, a % m;
    assert a + m * k == m * (q + k) + r;
    DivUnique(a + m * k, m, q + k, r);
  }

  lemma {:induction false} NonNegProduct(a: int, b: int)
    requires a >= 0 && b >= 0
    ensures a * b >= 0
  {
  }

  /** The remainder is the r of any decomposition m * q + r with 0 <= r < m. */
  lemma {:induction false} DivUnique(n: int, m: int, q: int, r: int)
    requires m > 0 && 0 <= r < m && n == m * q + r
    ensures n % m == r
  {
    var q0, r0 := n / m, n % m;
    assert n == m * q0 + r0;
    var d := q - q0;
    assert m * d == r0 - r by {
      assert m * d == m * q - m * q0;
    }
    if d >= 1 {
      assert m * d == m + m * (d - 1);
      NonNegProduct(m, d - 1);
    } else if d <= -1 {
      assert m * d == -m - m * (-d - 1);
      NonNegProduct(m, -d - 1);
    }
  }

  /** Within an era, each year adds 365 days and one more for a leap year. */
  lemma {:induction false} YearStartStep(yoe: int)
    requires 0 <= yoe < 399
    ensures YearStart(yoe + 1) == YearStart(yoe) + (if IsLeap(yoe + 1) then 366 else 365)
  {
    var q4, q100 := yoe / 4, yoe / 100;
    assert (yoe + 1) / 4 == if (yoe + 1) % 4 == 0 then q4 + 1 else q4;
    assert (yoe + 1) / 100 == if (yoe + 1) % 100 == 0 then q100 + 1 else q100;
    assert (yoe + 1) % 400 != 0;
    assert (yoe + 1) % 100 == 0 ==> (yoe + 1) % 4 == 0;
  }

  /** Outside February, the next month starts the month's length later. */
  lemma {:induction false} MonthOffsetStep(y: int, m: int)
    requires 1 <= m <= 12 && m != 2
    ensures MonthOffset(MonthIndex(m) + 1) == MonthOffset(MonthIndex(m)) + DaysInMonth(y, m)
  {
  }

  /** The day numbering counts days: the next date has the next number. */
  lemma {:induction false} DayNumberNext(d: Date)
    requires ValidDate(d)
    ensures DayNumber(NextDay(d)) == DayNumber(d) + 1
  {
    if d.day == DaysInMonth(d.year, d.month) {
      if d.month == 2 {
        YearLength(d.year - 1);
      } else {
        MonthOffsetStep(d.year, d.month);
        assert ShiftedYear(NextDay(d)) == ShiftedYear(d);
        assert MonthIndex(NextDay(d).month) == MonthIndex(d.month) + 1;
      }
    }
  }

  /** Within a month, the numbering is the first day's number plus the offset. */
  lemma {:induction false} DayNumberInMonth(d: Date)
    ensures DayNumber(d) == DayNumber(d.(day := 1)) + d.day - 1
  {
  }

  /** `date.weekday()`: Monday is 0; 1970-01-01 was a Thursday. */
  function Weekday(dayNumber: int): (w: int)
    ensures 0 <= w < 7
  {
    (dayNumber + 3) % 7
  }

  const SecondsPerDay := 86400

  /** `now.replace(hour=0, minute=0, second=0, microsecond=0)`. */
  function TodayStart(today: Date): int { DayNumber(today) * SecondsPerDay }

  /** `today_start - timedelta(days=now.weekday())`. */
  function WeekStart(today: Date): int {
    TodayStart(today) - Weekday(DayNumber(today)) * SecondsPerDay
  }

  /** `today_start.replace(day=1)`. */
  function MonthStart(today: Date): int { DayNumber(today.(day := 1)) * SecondsPerDay }

  /** The week starts on the Monday at most six days back, and the month no later than today. */
  lemma {:induction false} StartsOrdered(today: Date)
    requires 1 <= today.day
    ensures WeekStart(today) <= TodayStart(today) && MonthStart(today) <= TodayStart(today)
    ensures TodayStart(today) - WeekStart(today) <= 6 * SecondsPerDay
    ensures Weekday(DayNumber(today) - Weekday(DayNumber(today))) == 0
  {
    DayNumberInMonth(today);
    var n := DayNumber(today);
    var f := DayNumber(today.(day := 1));
    assert f <= n;
    MondayBefore(n);
  }

  /** Going back weekday days lands on a Monday, at most six days back. */
  lemma {:induction false} MondayBefore(n: int)
    ensures 0 <= Weekday(n) <= 6 && Weekday(n - Weekday(n)) == 0
  {
    assert n + 3 == 7 * ((n + 3) / 7) + Weekday(n);
    DivUnique(n - Weekday(n) + 3, 7, (n + 3) / 7, 0);
  }

  /** `count(...).filter(CDR.call_date >= start)`. */
  function CountSince(table: seq<CdrRecord>, start: int): (n: nat)
    ensures n <= |table|
  {
    if table == [] then 0
    else (if table[0].callDate >= start then 1 else 0) + CountSince(table[1..], start)
  }

  /** A later start counts no more calls. */
  lemma {:induction false} CountSinceMonotone(table: seq<CdrRecord>, early: int, late: int)
    requires early <= late
    ensures CountSince(table, late) <= CountSince(table, early)
  {
    if table != [] {
      CountSinceMonotone(table[1..], early, late);
    }
  }

  /** `count(...).filter(CDR.disposition == d)`; a NULL disposition equals nothing. */
  function CountDisposition(table: seq<CdrRecord>, d: string): (n: nat)
    ensures n <= |table|
  {
    if table == [] then 0
    else (if table[0].disposition == Some(d) then 1 else 0) + CountDisposition(table[1..], d)
  }

  /** The four disposition values are distinct, so a call is counted under at most one of them. */
  lemma {:induction false} DispositionsWithinTotal(table: seq<CdrRecord>)
    ensures CountDisposition(table, "ANSWERED") + CountDisposition(table, "NO ANSWER")
          + CountDisposition(table, "BUSY") + CountDisposition(table, "FAILED") <= |table|
  {
    if table != [] {
      DispositionsWithinTotal(table[1..]);
    }
  }

  /** `func.sum(...) or 0`: SQL SUM skips NULLs, and a sum over no values is NULL. */
  function TotalDuration(table: seq<CdrRecord>): int {
    if table == [] then 0 else table[0].duration.GetOr(0) + TotalDuration(table[1..])
  }

  function TotalBillsec(table: seq<CdrRecord>): int {
    if table == [] then 0 else table[0].billsec.GetOr(0) + TotalBillsec(table[1..])
  }

  /** Where no call bills more seconds than it lasted, the billed total is at most the total duration. */
  lemma {:induction false} BillsecWithinDuration(table: seq<CdrRecord>)
    requires forall i :: 0 <= i < |table| ==> table[i].billsec.GetOr(0) <= table[i].duration.GetOr(0)
    ensures TotalBillsec(table) <= TotalDuration(table)
  {
    if table != [] {
      BillsecWithinDuration(table[1..]);
    }
  }

  /** A call of today is also a call of this week and of this month. */
  lemma {:induction false} TimeCountsOrdered(table: seq<CdrRecord>, today: Date)
    ensures 1 <= today.day ==> CountSince(table, TodayStart(today)) <= CountSince(table, WeekStart(today))
    ensures 1 <= today.day ==> CountSince(table, TodayStart(today)) <= CountSince(table, MonthStart(today))
  {
    if 1 <= today.day {
      StartsOrdered(today);
      CountSinceMonotone(table, WeekStart(today), TodayStart(today));
      CountSinceMonotone(table, MonthStart(today), TodayStart(today));
    }
  }

  datatype CdrStats = CdrStats(
    totalCalls: nat, answeredCalls: nat, missedCalls: nat, busyCalls: nat, failedCalls: nat,
    totalDuration: int, totalBillsec: int, callsToday: nat, callsThisWeek: nat, callsThisMonth: nat)

  /** GET /api/cdr/stats over the whole table; `today` is the date of the clock's UTC now. */
  function GetCdrStats(table: seq<CdrRecord>, today: Date): (s: CdrStats)
    ensures s.totalCalls == |table|
    ensures s.answeredCalls + s.missedCalls + s.busyCalls + s.failedCalls <= s.totalCalls
    ensures 1 <= today.day ==> s.callsToday <= s.callsThisWeek && s.callsToday <= s.callsThisMonth
    ensures s.callsThisWeek <= s.totalCalls && s.callsThisMonth <= s.totalCalls
  {
    DispositionsWithinTotal(table);
    TimeCountsOrdered(table, today);
    CdrStats(
      |table|,
      CountDisposition(table, "ANSWERED"), CountDisposition(table, "NO ANSWER"),
      CountDisposition(table, "BUSY"), CountDisposition(table, "FAILED"),
      TotalDuration(table), TotalBillsec(table),
      CountSince(table, TodayStart(today)), CountSince(table, WeekStart(today)), CountSince(table, MonthStart(today)))
  }

  // ---------------------------------------------------------------- recent calls

  /** An entry of the dashboard widget (`time` is the call date, before it is rendered as ISO text). */
  datatype RecentCall = RecentCall(
    id: int, time: int, src: Option<string>, dst: Option<string>,
    duration: Option<int>, billsec: Option<int>, disposition: Option<string>)

  datatype RecentCalls = RecentCalls(calls: seq<RecentCall>, count: nat)

  function AsRecent(r: CdrRecord): RecentCall {
    RecentCall(r.id, r.callDate, r.src, r.dst, r.duration, r.billsec, r.disposition)
  }

  /** GET /api/cdr/recent: the `limit` newest calls of the whole table. */
  function GetRecentCalls(table: seq<CdrRecord>, limit: nat): (r: RecentCalls)
    ensures r.count == |r.calls| && r.count <= limit && r.count <= |table|
  {
    var newest := Window(Newest(table), 0, limit);
    Ordering.SortDescSortedPermutation(table, CallDate);
    RecentCalls(seq(|newest|, i requires 0 <= i < |newest| => AsRecent(newest[i])), |newest|)
  }

  /** The widget shows the first page of the unfiltered list, newest first. */
  lemma {:induction false} RecentIsFirstPage(table: seq<CdrRecord>, limit: nat)
    requires 1 <= limit <= MaxLimit
    ensures var page := ListCdr(table, NoFilter, limit, 0).value;
      var recent := GetRecentCalls(table, limit).calls;
      && |recent| == |page|
      && (forall i :: 0 <= i < |page| ==> recent[i] == AsRecent(page[i]))
      && (forall i, j :: 0 <= i < j < |recent| ==> recent[i].time >= recent[j].time)
  {
    NoFilterKeepsAll(table);
    ListCdrSound(table, NoFilter, limit, 0);
  }
}
