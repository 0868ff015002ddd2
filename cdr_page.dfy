/**
 * The call-history page of the web front end: the query it sends for the
 * record list (a fixed limit of 100 and the non-empty filters), the
 * unfiltered statistics request, the paired update after both replies, the
 * filter reset, and the cell renderings of the table (durations, the
 * disposition badge, dashes for missing numbers).
 */
module CdrPage {
  import opened Wrappers
  import opened Text
  import Duration
  import Cdr

  /** One record as the page receives it; `callDate` is the ISO text the server sends. */
  datatype CdrRow = CdrRow(
    id: int, callDate: string, clid: Option<string>, src: Option<string>, dst: Option<string>,
    duration: Option<int>, billsec: Option<int>, disposition: Option<string>)

  /** The statistics cards' data (the average duration, a float, is not modelled). */
  datatype CdrStatsView = CdrStatsView(
    totalCalls: nat, answeredCalls: nat, missedCalls: nat, busyCalls: nat,
    totalDuration: int, callsToday: nat, callsThisWeek: nat)

  /** The three filter inputs: source, destination and the selected status. */
  datatype Filters = Filters(src: string, dst: string, disposition: string)

  const Cleared := Filters("", "", "")

  /** A URLSearchParams object: name/value pairs in the order they were appended. */
  type Params = seq<(string, string)>

  const LimitKey := "limit"
  const PageLimit := "100"

  /** `URLSearchParams.get`: the first value appended under the name. */
  function Lookup(q: Params, key: string): (r: Option<string>)
    ensures r.None? <==> forall i :: 0 <= i < |q| ==> q[i].0 != key
  {
    if q == [] then None
    else if q[0].0 == key then Some(q[0].1)
    else Lookup(q[1..], key)
  }

  function First(x: Option<string>, y: Option<string>): Option<string> {
    if x.Some? then x else y
  }

  /** A name is looked up in the earlier pairs first. */
  lemma {:induction false} LookupAppend(a: Params, b: Params, key: string)
    ensures Lookup(a + b, key) == First(Lookup(a, key), Lookup(b, key))
  {
    if a != [] {
      assert (a + b)[1..] == a[1..] + b;
      LookupAppend(a[1..], b, key);
    } else {
      assert a + b == b;
    }
  }

  /** `if (value) params.append(key, value)`. */
  function Optional(key: string, value: string): Params {
    if value != "" then [(key, value)] else []
  }

  /** The query `fetchCDR` builds from the filters it sees. */
  function Query(f: Filters): Params {
    [(LimitKey, PageLimit)] + Optional("src", f.src) + Optional("dst", f.dst) + Optional("disposition", f.disposition)
  }

  /** The record query: limit first, then src, dst and disposition, each exactly when it is non-empty. */
  method BuildQuery(f: Filters) returns (params: Params)
    ensures params == Query(f)
  {
    params := [];
    params := params + [(LimitKey, PageLimit)];
    if f.src != "" {
      params := params + [("src", f.src)];
    }
    if f.dst != "" {
      params := params + [("dst", f.dst)];
    }
    if f.disposition != "" {
      params := params + [("disposition", f.disposition)];
    }
  }

  function Present(value: string): Option<string> {
    if value != "" then Some(value) else None
  }

  /** Looking a name up in the query looks it up in each appended part in turn. */
  lemma {:induction false} QueryLookup(f: Filters, key: string)
    ensures Lookup(Query(f), key) == First(First(First(Lookup([(LimitKey, PageLimit)], key),
      Lookup(Optional("src", f.src), key)), Lookup(Optional("dst", f.dst), key)), Lookup(Optional("disposition", f.disposition), key))
  {
    var l: Params := [(LimitKey, PageLimit)];
    var a := Optional("src", f.src);
    var b := Optional("dst", f.dst);
    LookupAppend(l, a, key);
    LookupAppend(l + a, b, key);
    LookupAppend(l + a + b, Optional("disposition", f.disposition), key);
  }

  /** Each filter is in the query under its own name exactly when it is non-empty. */
  lemma {:induction false} QueryFilterLookups(f: Filters)
    ensures Lookup(Query(f), "src") == Present(f.src)
    ensures Lookup(Query(f), "dst") == Present(f.dst)
    ensures Lookup(Query(f), "disposition") == Present(f.disposition)
  {
    NamesDistinct();
    QueryLookup(f, "src");
    QueryLookup(f, "dst");
    QueryLookup(f, "disposition");
  }

  /** The query always starts with limit=100, carries each filter iff it is non-empty, and nothing else. */
  lemma {:induction false} QueryKeys(f: Filters)
    ensures var q := Query(f);
      && |q| >= 1 && q[0] == (LimitKey, PageLimit)
      && Lookup(q, LimitKey) == Some(PageLimit)
      && Lookup(q, "src") == Present(f.src)
      && Lookup(q, "dst") == Present(f.dst)
      && Lookup(q, "disposition") == Present(f.disposition)
      && (forall i :: 0 <= i < |q| ==> q[i].0 in QueryNames)
      && |q| == 1 + |Optional("src", f.src)| + |Optional("dst", f.dst)| + |Optional("disposition", f.disposition)|
  {
    QueryFilterLookups(f);
    var q := Query(f);
    assert q[0] == (LimitKey, PageLimit);
    forall i | 0 <= i < |q| ensures q[i].0 in QueryNames {
    }
  }

  const QueryNames := [LimitKey, "src", "dst", "disposition"]

  lemma {:induction false} NamesDistinct()
    ensures forall i, j :: 0 <= i < j < |QueryNames| ==> QueryNames[i] != QueryNames[j]
  {
    assert LimitKey[0] == 'l' && "src"[0] == 's' && "dst"[0] == 'd' && "disposition"[1] == 'i';
  }

  /** The server's reading of the query: the named parameters, no date range (the page never sends one). */
  function ServerFilter(q: Params): (f: Cdr.CdrFilter)
    ensures f.dateFrom.None? && f.dateTo.None?
  {
    Cdr.CdrFilter(Lookup(q, "src"), Lookup(q, "dst"), Lookup(q, "disposition"), None, None)
  }

  /** A record is listed for the page's query iff it passes each non-empty filter field as typed. */
  lemma {:induction false} QueryFiltersAsShown(f: Filters, r: Cdr.CdrRecord)
    ensures Cdr.Matches(r, ServerFilter(Query(f))) <==>
      && (f.src != "" ==> Cdr.ColumnContains(r.src, f.src))
      && (f.dst != "" ==> Cdr.ColumnContains(r.dst, f.dst))
      && (f.disposition != "" ==> r.disposition == Some(Upper(f.disposition)))
  {
    QueryKeys(f);
  }

  /** With every field empty the page asks for the first 100 rows of the whole table. */
  lemma {:induction false} ClearedQueryListsAll(table: seq<Cdr.CdrRecord>)
    ensures Query(Cleared) == [(LimitKey, PageLimit)]
    ensures ServerFilter(Query(Cleared)) == Cdr.NoFilter
    ensures Cdr.ListCdr(table, ServerFilter(Query(Cleared)), 100, 0) == Cdr.ListCdr(table, Cdr.NoFilter, 100, 0)
    ensures Cdr.ListCdr(table, ServerFilter(Query(Cleared)), 100, 0).Ok?
  {
    assert Query(Cleared) == [(LimitKey, PageLimit)];
  }

  // ---------------------------------------------------------------- status choices and badges

  const KnownDispositions := ["ANSWERED", "NO ANSWER", "BUSY", "FAILED"]

  /** The status select's option values: "" (all) and the four dispositions. */
  const DispositionChoices := [""] + KnownDispositions

  /** Each choice is already upper case, so choosing it on the server selects exactly that disposition. */
  lemma {:induction false} ChoicesSelectExactly(c: string, r: Cdr.CdrRecord)
    requires c in KnownDispositions
    ensures Cdr.Matches(r, ServerFilter(Query(Filters("", "", c)))) <==> r.disposition == Some(c)
  {
    assert Upper(c) == c by {
      UpperNoop(c);
    }
    var f := Filters("", "", c);
    QueryFiltersAsShown(f, r);
    assert f.src == "" && f.dst == "" && f.disposition == c;
  }

  lemma {:induction false} UpperNoop(s: string)
    requires forall i :: 0 <= i < |s| ==> !('a' <= s[i] <= 'z')
    ensures Upper(s) == s
  {
    assert forall i :: 0 <= i < |s| ==> Upper(s)[i] == s[i];
  }

  const Green := "bg-green-100 text-green-800"
  const Yellow := "bg-yellow-100 text-yellow-800"
  const Orange := "bg-orange-100 text-orange-800"
  const Red := "bg-red-100 text-red-800"
  const Gray := "bg-gray-100 text-gray-800"

  predicate Known(d: Option<string>) {
    d.Some? && d.value in KnownDispositions
  }

  /** `getDispositionStyle`: a colour per known disposition, gray for anything else, null included. */
  function DispositionStyle(d: Option<string>): (r: string)
    ensures r == Gray <==> !Known(d)
    ensures r in [Green, Yellow, Orange, Red, Gray]
  {
    match d
    case Some("ANSWERED") => Green
    case Some("NO ANSWER") => Yellow
    case Some("BUSY") => Orange
    case Some("FAILED") => Red
    case _ => Gray
  }

  /** The four known dispositions show four different badges. */
  lemma {:induction false} StylesDistinct(a: string, b: string)
    requires a in KnownDispositions && b in KnownDispositions && a != b
    ensures DispositionStyle(Some(a)) != DispositionStyle(Some(b))
  {
  }

  datatype Icon = Phone | PhoneMissed | PhoneOutgoing | PhoneIncoming

  /** `getDispositionIcon`: FAILED has no icon of its own and shares the default with unknown values. */
  function DispositionIcon(d: Option<string>): (r: Icon)
    ensures r == PhoneIncoming <==> !(d.Some? && d.value in ["ANSWERED", "NO ANSWER", "BUSY"])
  {
    match d
    case Some("ANSWERED") => Phone
    case Some("NO ANSWER") => PhoneMissed
    case Some("BUSY") => PhoneOutgoing
    case _ => PhoneIncoming
  }

  /** The badge text: the disposition, or "Unknown" when it is null or empty. */
  function DispositionLabel(d: Option<string>): (r: string)
    ensures r != ""
    ensures r == "Unknown" <==> d.None? || d.value in ["", "Unknown"]
  {
    OrElse(d, "Unknown")
  }

  /** `formatDuration`: a null or zero value reads "0:00", anything else the m:ss rendering. */
  function FormatDuration(seconds: Option<int>): (r: string)
    ensures seconds.None? ==> r == "0:00"
    ensures seconds.Some? && seconds.value >= 0 ==> Duration.ParseMinSec(r) == Some(seconds.value)
  {
    ZeroRendering();
    if seconds.None? || seconds.value == 0 then "0:00"
    else if seconds.value < 0 then Duration.MinSec(seconds.value)
    else
      Duration.MinSecRoundTrip(seconds.value);
      Duration.MinSec(seconds.value)
  }

  lemma {:induction false} ZeroRendering()
    ensures Duration.MinSec(0) == "0:00"
    ensures Duration.ParseMinSec("0:00") == Some(0)
  {
    assert NatToString(0) == "0";
    Duration.MinSecRoundTrip(0);
  }

  /** Treating null as zero is the only special case: the cell is always the rendering of the value or of 0. */
  lemma {:induction false} FormatDurationIsMinSec(seconds: Option<int>)
    ensures FormatDuration(seconds) == Duration.MinSec(seconds.GetOr(0))
  {
    ZeroRendering();
  }

  // ---------------------------------------------------------------- the table

  /** One rendered row (the date cell's locale text is not modelled; `hasDate` says whether it shows one). */
  datatype RowView = RowView(
    key: int, hasDate: bool, src: string, dst: string,
    duration: string, billsec: string, icon: Icon, style: string, badge: string)

  function View(r: CdrRow): (v: RowView)
    ensures v.key == r.id && v.hasDate == (r.callDate != "")
    ensures v.src == OrElse(r.src, "-") && v.dst == OrElse(r.dst, "-")
    ensures v.src != "" && v.dst != "" && v.badge != ""
  {
    RowView(r.id, r.callDate != "", OrElse(r.src, "-"), OrElse(r.dst, "-"),
            FormatDuration(r.duration), FormatDuration(r.billsec),
            DispositionIcon(r.disposition), DispositionStyle(r.disposition), DispositionLabel(r.disposition))
  }

  datatype TableBody = Loading | NoCalls | Table(rows: seq<RowView>)

  /** The table area: the loading text, the "no calls found" text, or one row per record in order. */
  function Body(loading: bool, records: seq<CdrRow>): (b: TableBody)
    ensures b == Loading <==> loading
    ensures b == NoCalls <==> !loading && records == []
    ensures b.Table? ==> |b.rows| == |records| > 0 && forall i :: 0 <= i < |records| ==> b.rows[i] == View(records[i])
  {
    if loading then Loading
    else if records == [] then NoCalls
    else Table(seq(|records|, i requires 0 <= i < |records| => View(records[i])))
  }

  /** How `Promise.all` over the two requests ends: both replies, or a failure of either. */
  datatype FetchOutcome = Both(records: seq<CdrRow>, stats: CdrStatsView) | Failed

  /** The page component's state. */
  class CdrPageState {
    var records: seq<CdrRow>
    var stats: Option<CdrStatsView>
    var loading: bool
    var filterSrc: string
    var filterDst: string
    var filterDisposition: string

    function CurrentFilters(): Filters
      reads this
    {
      Filters(filterSrc, filterDst, filterDisposition)
    }

    /** The first render: no records, no stats, loading, every filter empty. */
    constructor ()
      ensures records == [] && stats.None? && loading
      ensures CurrentFilters() == Cleared
    {
      records := [];
      stats := None;
      loading := true;
      filterSrc, filterDst, filterDisposition := "", "", "";
    }

    /** The inputs' `onChange` handlers. */
    method SetFilters(f: Filters)
      modifies this
      ensures CurrentFilters() == f
      ensures records == old(records) && stats == old(stats) && loading == old(loading)
    {
      filterSrc, filterDst, filterDisposition := f.src, f.dst, f.disposition;
    }

    /**
     * The first half of a `fetchCDR` whose closure saw the filters `seen`:
     * loading starts, the record query is built from `seen`, and the
     * statistics request carries no parameters at all.
     */
    method StartFetchWith(seen: Filters) returns (query: Params, statsQuery: Params)
      modifies this
      ensures loading
      ensures query == Query(seen) && statsQuery == []
      ensures records == old(records) && stats == old(stats) && CurrentFilters() == old(CurrentFilters())
    {
      loading := true;
      query := BuildQuery(seen);
      statsQuery := [];
    }

    /** `fetchCDR` as the search button and the first effect call it: with the current filters. */
    method StartFetch() returns (query: Params, statsQuery: Params)
      modifies this
      ensures loading
      ensures query == Query(old(CurrentFilters())) && statsQuery == []
      ensures records == old(records) && stats == old(stats) && CurrentFilters() == old(CurrentFilters())
    {
      query, statsQuery := StartFetchWith(CurrentFilters());
    }

    /** The second half: both replies replace records and stats together, a failure keeps both; loading ends. */
    method FinishFetch(outcome: FetchOutcome)
      modifies this
      ensures !loading
      ensures outcome.Both? ==> records == outcome.records && stats == Some(outcome.stats)
      ensures outcome.Failed? ==> records == old(records) && stats == old(stats)
      ensures CurrentFilters() == old(CurrentFilters())
    {
      if outcome.Both? {
        records := outcome.records;
        stats := Some(outcome.stats);
      }
      loading := false;
    }

    /**
     * `clearFilters`: the three fields become empty, and the fetch that the
     * timer runs 100 ms later is the one of this render, so it still sees the
     * filters as they were before the reset; they are returned as `pending`
     * for `StartFetchWith`.
     */
    method ClearFilters() returns (pending: Filters)
      modifies this
      ensures CurrentFilters() == Cleared
      ensures pending == old(CurrentFilters())
      ensures records == old(records) && stats == old(stats) && loading == old(loading)
    {
      pending := CurrentFilters();
      filterSrc, filterDst, filterDisposition := "", "", "";
    }

    /** The reset as evidently intended: the fields are emptied and the refetch asks for the unfiltered list. */
    method ClearFiltersAndRefetch() returns (query: Params, statsQuery: Params)
      modifies this
      ensures CurrentFilters() == Cleared && loading
      ensures query == [(LimitKey, PageLimit)] && statsQuery == []
      ensures ServerFilter(query) == Cdr.NoFilter
      ensures records == old(records) && stats == old(stats)
    {
      filterSrc, filterDst, filterDisposition := "", "", "";
      query, statsQuery := StartFetchWith(Cleared);
      assert query == [(LimitKey, PageLimit)];
    }
  }

  /**
   * After typing "1001" as the source and pressing reset, the delayed refetch
   * still sends src=1001, so the list stays filtered while the fields are empty.
   */
  lemma {:induction false} ClearFiltersRefetchesStale()
    ensures Query(Filters("1001", "", "")) == [(LimitKey, PageLimit), ("src", "1001")]
    ensures Query(Filters("1001", "", "")) != Query(Cleared)
    ensures Lookup(Query(Filters("1001", "", "")), "src") == Some("1001")
  {
    QueryKeys(Filters("1001", "", ""));
  }
}
