/**
 * The admin-only audit-log query: optional exact-match filters on action
 * and user name, the total before paging, and one newest-first page of
 * entries. The log table is a sequence of rows in storage order;
 * timestamps are whole seconds since 1970-01-01 00:00 (naive UTC).
 */
module Audit {
  import opened Wrappers
  import opened Sql
  import Ordering

  datatype AuditLog = AuditLog(
    id: int, timestamp: Option<nat>, username: Option<string>, action: Option<string>,
    resourceType: Option<string>, resourceId: Option<string>, details: Option<string>, ipAddress: Option<string>)

  /** What the endpoint returns for one row; `details` stays the stored JSON text. */
  datatype AuditEntry = AuditEntry(
    id: int, timestamp: Option<nat>, username: Option<string>, action: Option<string>,
    resourceType: Option<string>, resourceId: Option<string>, details: Option<string>, ipAddress: Option<string>)

  datatype AuditPage = AuditPage(total: nat, logs: seq<AuditEntry>)

  /** `if action:` on an optional string: present and not empty. */
  predicate Given(s: Option<string>) { s.Some? && s.value != "" }

  /** The row passes each supplied filter by exact equality; a NULL column equals nothing. */
  predicate Matches(log: AuditLog, action: Option<string>, username: Option<string>) {
    && (Given(action) ==> log.action == action)
    && (Given(username) ==> log.username == username)
  }

  function Filtered(table: seq<AuditLog>, action: Option<string>, username: Option<string>): (r: seq<AuditLog>)
    ensures forall i :: 0 <= i < |r| ==> r[i] in table && Matches(r[i], action, username)
    ensures forall i :: 0 <= i < |table| && Matches(table[i], action, username) ==> table[i] in r
  {
    Select(table, log => Matches(log, action, username))
  }

  /**
   * The sort key of `timestamp DESC`. The writer always sets the timestamp
   * (backend/audit.py:25), so a NULL only comes from rows written elsewhere;
   * where such a row lands depends on the database, and the key puts it last.
   */
  function TimeKey(log: AuditLog): int {
    if log.timestamp.Some? then log.timestamp.value else -1
  }

  /** `json.loads(x) if x else None` and `x.isoformat() if x else None`: absent or empty gives null. */
  function Entry(log: AuditLog): (e: AuditEntry)
    ensures e.details.None? <==> log.details.None? || log.details.value == ""
    ensures e.timestamp == log.timestamp
  {
    var details := if log.details.Some? && log.details.value != "" then log.details else None;
    AuditEntry(log.id, log.timestamp, log.username, log.action, log.resourceType, log.resourceId, details, log.ipAddress)
  }

  function Entries(rows: seq<AuditLog>): (r: seq<AuditEntry>)
    ensures |r| == |rows| && forall i :: 0 <= i < |rows| ==> r[i] == Entry(rows[i])
  {
    seq(|rows|, i requires 0 <= i < |rows| => Entry(rows[i]))
  }

  /** GET /api/audit/: the filtered total, and the page of matching entries, newest first. */
  function GetAuditLogs(table: seq<AuditLog>, limit: int, offset: int, action: Option<string>, username: Option<string>)
    : (r: Reply<AuditPage>)
    ensures r.Fail? <==> !ValidPage(limit, offset)
    ensures r.Fail? ==> r.status == Unprocessable
  {
    if !ValidPage(limit, offset) then Fail(Unprocessable, "limit must be 1..500 and offset at least 0")
    else
      var rows := Filtered(table, action, username);
      Ok(AuditPage(|rows|, Entries(Window(Ordering.SortDesc(rows, TimeKey), offset, limit))))
  }

  /** The total counts every matching row, whatever page is asked for. */
  lemma {:induction false} TotalIgnoresPaging(table: seq<AuditLog>, action: Option<string>, username: Option<string>,
                           limit1: int, offset1: int, limit2: int, offset2: int)
    requires ValidPage(limit1, offset1) && ValidPage(limit2, offset2)
    ensures GetAuditLogs(table, limit1, offset1, action, username).value.total
         == GetAuditLogs(table, limit2, offset2, action, username).value.total
         == |Filtered(table, action, username)|
  {
  }

  /** The page holds at most limit entries and no more than the total, each of a matching row, newest first. */
  lemma {:induction false} PageSound(table: seq<AuditLog>, limit: int, offset: int, action: Option<string>, username: Option<string>)
    requires ValidPage(limit, offset)
    ensures var page := GetAuditLogs(table, limit, offset, action, username).value;
      && |page.logs| <= limit && |page.logs| <= page.total
      && (forall i :: 0 <= i < |page.logs| ==>
            exists j :: 0 <= j < |table| && Matches(table[j], action, username) && page.logs[i] == Entry(table[j]))
      && (forall i, j :: 0 <= i < j < |page.logs| && page.logs[j].timestamp.Some? ==>
            page.logs[i].timestamp.Some? && page.logs[i].timestamp.value >= page.logs[j].timestamp.value)
  {
    var rows := Filtered(table, action, username);
    var sorted := Ordering.SortDesc(rows, TimeKey);
    Ordering.SortDescSortedPermutation(rows, TimeKey);
    var w := Window(sorted, offset, limit);
    var logs := Entries(w);
    forall i | 0 <= i < |logs|
      ensures exists j :: 0 <= j < |table| && Matches(table[j], action, username) && logs[i] == Entry(table[j])
    {
      assert w[i] == sorted[offset + i];
      assert sorted[offset + i] in multiset(rows);
      var j :| 0 <= j < |table| && table[j] == w[i];
    }
    forall i, j | 0 <= i < j < |logs| && logs[j].timestamp.Some?
      ensures logs[i].timestamp.Some? && logs[i].timestamp.value >= logs[j].timestamp.value
    {
      assert w[i] == sorted[offset + i] && w[j] == sorted[offset + j];
      assert TimeKey(w[i]) >= TimeKey(w[j]);
    }
  }

  /** Without filters the total is the size of the whole log. */
  lemma {:induction false} UnfilteredTotal(table: seq<AuditLog>, limit: int, offset: int)
    requires ValidPage(limit, offset)
    ensures GetAuditLogs(table, limit, offset, None, None).value.total == |table|
  {
    SelectAll(table, log => Matches(log, None, None));
  }
}
