# gonopbx operator dashboard: a verified Dafny model

This project models the logic of the gonopbx PBX dashboard that holds state or
enforces a rule, and proves properties of that model. It covers these parts:

- **SIP capture buffer** (`backend/sip_debug.py`).
  - A bounded queue of SIP messages polled from Asterisk's `pjsip show history`, with an index from Call-ID to each call's messages.
  - The parsers for the history listing, the entry header line, the SIP start line (section 7.1 and section 7.2 of RFC 3261) and the Call-ID, From, To and CSeq headers (section 7.3.1 of RFC 3261).
  - Eviction by count (10 000 messages) and by age (two hours).
  - The per-call summaries and the per-call message lists.
- **Backend routers** (`backend/routers/`).
  - Call-detail records: filtering, newest-first ordering and paging, the count, the statistics counts and the recent calls.
  - The voicemail spool sync, list, statistics, mark-read and delete.
  - SMTP settings with password masking; codec-list validation.
  - The users table with its uniqueness and admin guards.
  - The audit log.
- **Frontend pages**: the query and state handling of the CDR page, the voicemail page and the settings page, and the active-calls widget with its per-call second counter.

## Modelling conventions

- **Shared helpers.**
  - `text.dfy` holds the Python and JavaScript text primitives the source relies on: `strip`, `split`, `join`, `upper`, `int()`, decimal printing.
  - `sql.dfy` holds the SQL semantics: WHERE, OFFSET/LIMIT, LIKE/ILIKE.
  - `ordering.dfy` holds the stable descending sort, used for `ORDER BY … DESC` and `list.sort(reverse=True)`.
  - `duration.dfy` holds the `m:ss` rendering that three frontend files share.
- **Tables** are sequences of rows in storage order, or maps for the key-value settings table.
- **Timestamps** are whole seconds or milliseconds. The clock is a parameter (`now`). For the voicemail sync it also carries the local zone's offset from UTC, because `fromtimestamp` reads local time.
- **Foreign answers become inputs.** This covers AMI responses, directory listings, file contents, file existence, the password hash, the mail sender's result and `window.confirm`.
- **Classes for state changed in place.**
  - `SipDebugBuffer`, `VoicemailStore`, `SettingsStore` and `UserTable` on the backend.
  - `CdrPageState`, `VoicemailPageState`, `SettingsPageState` and `CallItem` on the frontend.
  - Their methods have `modifies` clauses and `ensures` that tie the new state to specification functions.
  - Loops in the source (the eviction loops, the poll's entry collection, the spool sync and the settings loops) are `while` loops with invariants.
- **Asynchronous handlers** are split at each `await`. A `Start…` method does what happens before the request; a `Finish…` method takes the request's outcome as input. A closure that captured an older render's values receives those values as a parameter.
- **Behaviour worth noting.** The model follows what the code does:
  - The CDR page requests the statistics without filter parameters, and the statistics endpoint takes none. The statistics shown never depend on the filters.
  - No response is tagged or discarded as stale: whichever reply arrives is applied.
  - Marking a voicemail read is not optimistic, and nothing is rolled back. The page sends the request, then refetches on success.
  - Changing the mailbox or the unread toggle keeps the selection.
  - The active-call counter starts when the item mounts. It does not start when the call becomes connected, and it ignores the server's start time.
  - The status filter is a select with fixed options. The server upper-cases whatever it receives and compares for equality. No local validation rejects other values.
  - A voicemail's date comes from `datetime.fromtimestamp`, which gives local time, when the info file has an origtime. Without one it comes from `datetime.utcnow`, which gives UTC. The stored dates mix the two.
  - An origtime that `fromtimestamp` cannot convert, such as one past year 9999, raises inside the sync. Nothing catches it, so every list and statistics request fails while that file is in the spool.
  - `int()` raises ValueError on a number of more than 4300 digits. An info file with such a duration or origtime fails the sync the same way. In a SIP entry header or a status line the error is caught: the entry gets the current time, or the status 0.

## Model

| member | source | states |
|---|---|---|
| Text.Strip | backend/sip_debug.py:123 | Python's `str.strip()`: the result is the input without its leading and trailing whitespace, and neither end of a non-empty result is whitespace |
| Text.StripNoop | backend/sip_debug.py:160 | text that already has no surrounding whitespace is left unchanged by `strip()` |
| Text.StripPadded | backend/sip_debug.py:181 | text followed by whitespace only strips back to the text |
| Text.StripExcludes | backend/sip_debug.py:187 | stripping adds no character, so a line without a newline stays without one |
| Text.Split | backend/sip_debug.py:122 | `str.split(sep)` for one character returns at least one piece and no piece contains the separator |
| Text.JoinSplit | backend/sip_debug.py:181 | `sep.join(s.split(sep)) == s` for every text |
| Text.SplitJoin | frontend/src/pages/SettingsPage.tsx:49 | splitting a join gives back the parts when none of them contains the separator |
| Text.SplitNoSep | backend/sip_debug.py:187 | text without the separator splits into itself alone |
| Text.SplitAfterPiece | backend/routers/voicemail.py:38 | a separator-free piece followed by the separator splits off as the first part |
| Text.Upper | backend/routers/cdr.py:74 | `disposition.upper()`: the same length, each character mapped to upper case |
| Text.PyInt | backend/routers/voicemail.py:78-79 | Python's `int()` on text: a string of up to 4300 decimal digits reads as its decimal value, and a longer one raises ValueError (CPython's default `sys.get_int_max_str_digits()`) |
| Text.DecimalOfNatToString | frontend/src/components/ActiveCalls.tsx:43 | printing a natural number in decimal and reading it back gives the number |
| Text.ZeroPad | backend/sip_debug.py:25-28 | left-padding with zeros, as in the five-digit history entry number, keeps the decimal value and reaches the requested width |
| Text.ReplaceAbsent | backend/routers/voicemail.py:57 | `str.replace` leaves text without the pattern untouched |
| Text.OrText | frontend/src/pages/VoicemailPage.tsx:213 | JavaScript's logical-or fallback on a string: the text when it is not empty, otherwise the fallback |
| Text.OrElse | backend/routers/users.py:63-64 | Python `a or b`, and JavaScript's logical-or fallback on a nullable text: a when it is present and not empty, otherwise b |
| Sql.Select | backend/routers/cdr.py:66-78 | a `filter` keeps exactly the rows that meet its condition, in table order |
| Sql.SelectAll | backend/routers/cdr.py:66-78 | a condition every row meets removes nothing |
| Sql.SelectCounts | backend/routers/cdr.py:66-78 | a row meeting the condition is kept as often as it occurs, any other row never |
| Sql.Window | backend/routers/cdr.py:81 | `OFFSET offset LIMIT limit` keeps at most `limit` consecutive rows starting at `offset` |
| Sql.WindowsTile | backend/routers/cdr.py:81 | consecutive pages tile the ordered result: nothing skipped, nothing repeated |
| Sql.WindowWhole | backend/routers/cdr.py:160 | a first page at least as large as the result is the whole result |
| Sql.LikeAnything | backend/routers/cdr.py:70 | the pattern `%` matches every text |
| Sql.LikePrefix | backend/routers/cdr.py:70 | a literal followed by `%` matches exactly the texts that start with it |
| Sql.LikeSuffix | backend/routers/cdr.py:70 | a leading `%` matches when the rest of the pattern matches some suffix |
| Sql.LikeContains | backend/routers/cdr.py:70 | `%q%` matches exactly the texts that contain the literal q |
| Sql.ContainsPattern | backend/routers/cdr.py:70-72 | `ilike('%f%')` holds exactly when f occurs in the text with letter case ignored |
| Sql.FirstWithKey | backend/routers/users.py:78 | `.filter(key == id).first()` finds the first row with that id, or reports that no row has it |
| Sql.FirstWithKeyAt | backend/routers/voicemail.py:121 | the first row carrying the id is the one `.first()` returns |
| Ordering.InsertPermutes | backend/routers/cdr.py:81 | inserting an item into the order adds that item and nothing else |
| Ordering.InsertSorted | backend/routers/cdr.py:81 | inserting into a descending order keeps it descending |
| Ordering.SortDescSortedPermutation | backend/routers/cdr.py:81 | `order_by(...desc())` yields the same rows, sorted by descending key |
| Ordering.SortDescStable | backend/sip_debug.py:310 | `list.sort(reverse=True)` is stable: items with equal keys keep their original order |
| Ordering.SortDescOfSorted | backend/routers/audit.py:33 | a list already in descending order is left as it is |
| Duration.JsRem | frontend/src/pages/CDRPage.tsx:76 | JavaScript's `%`: the remainder takes the dividend's sign and is smaller in magnitude than the divisor |
| Duration.PadStart2 | frontend/src/pages/CDRPage.tsx:77 | `padStart(2, '0')` leaves strings of two or more characters alone and left-fills shorter ones with zeros up to two |
| Duration.MinSecParts | frontend/src/pages/CDRPage.tsx:73-78 | a non-negative duration renders as the minutes, a colon and exactly two digits of seconds |
| Duration.MinSecRoundTrip | frontend/src/pages/CDRPage.tsx:73-78 | reading the rendered "m:ss" back gives the number of seconds |
| Duration.ParseOfParts | frontend/src/pages/CDRPage.tsx:77 | two colon-separated runs of digits read back as 60 times the minutes plus the seconds |
| Duration.MinSecInjective | frontend/src/pages/VoicemailPage.tsx:94-98 | distinct non-negative durations render differently |
| Duration.MinSecNegative | frontend/src/components/ActiveCalls.tsx:61-65 | a negative duration shows a negative seconds field: -5 seconds reads "-1:-5" |
| SipParse.ItemParts | backend/sip_debug.py:255-272 | a message item contributes its Output when that is non-empty, otherwise its content; an item with neither contributes nothing |
| SipParse.ItemOutput | backend/sip_debug.py:255-272 | the loop body computes exactly the item's parts |
| SipParse.ExtractCommandOutput | backend/sip_debug.py:247-273 | the loop over the response's items returns all their parts joined by newlines, and "" for an empty response |
| SipParse.CommandOutputLines | backend/sip_debug.py:260-265 | a single message with a multi-line Output gives those lines back when the text is split on newlines |
| SipParse.Literal | backend/sip_debug.py:34-36 | a literal matches exactly when the text starts with it, and what follows is the rest |
| SipParse.Token | backend/sip_debug.py:27-36 | a `\s+`/`\d+`/`\S+` run is non-empty and the run plus the rest is the text; there is no run exactly when the text is empty or starts with a character outside the class |
| SipParse.HistoryEntryNumber | backend/sip_debug.py:27-29 | a listing line that matches yields a five-digit number, so below 100000 |
| SipParse.HistoryLineNumber | backend/sip_debug.py:24-29 | every listing line as Asterisk prints it (padded number, epoch, `*`, arrow, address, summary) matches and yields its entry number |
| SipParse.NewerEntries | backend/sip_debug.py:121-127 | every number collected is above the last one polled, and there are at most as many as lines |
| SipParse.NewerEntriesComplete | backend/sip_debug.py:121-127 | a number is collected exactly when it is above the last one polled and some line carries it |
| SipParse.NewEntriesSound | backend/sip_debug.py:121-127 | the listing's new entries are exactly the listed numbers above the last one polled, each below 100000 |
| SipParse.ScanHistory | backend/sip_debug.py:121-127 | the loop over the listing's lines collects exactly the new entries, in line order |
| SipParse.MaxOf | backend/sip_debug.py:140 | `max` of a non-empty batch is one of its elements and no element exceeds it |
| SipParse.MatchEntryHeader | backend/sip_debug.py:34-36 | a matching header starts with `<---` and names an address without whitespace |
| SipParse.EntryHeaderRoundTrip | backend/sip_debug.py:31-36 | every entry header line Asterisk prints (both directions, any entry number, address and epoch) is read back to that direction and address, and to that epoch unless its digits exceed what `int()` converts |
| SipParse.TimeTEpochReadBack | backend/sip_debug.py:31-36 | a header whose epoch fits time_t reads back to exactly that epoch |
| SipParse.EpochValue | backend/sip_debug.py:176 | the epoch's digit run converts exactly when `int()` accepts it, and to the same value |
| SipParse.FirstHeaderBy | backend/sip_debug.py:157-164 | the header found is on the first line that matches: it matches there and on no earlier line; none is found exactly when no line matches |
| SipParse.FindEntryHeader | backend/sip_debug.py:157-164 | the search loop stops at the first matching line and returns its index and header |
| SipParse.EntryTimestamp | backend/sip_debug.py:175-179 | an epoch datetime can hold is the timestamp; one `int()` rejects, or one datetime cannot hold but time_t can, gives `now` (the caught errors); one beyond time_t skips the entry (the uncaught overflow) |
| SipParse.FirstLine | backend/sip_debug.py:187 | the first line of the message holds no line break |
| SipParse.ClassifyStartLine | backend/sip_debug.py:186-200 | a message has a method or a status code, never both, and a method is one word |
| SipParse.StatusLineCode | backend/sip_debug.py:190-196 | a status line `SIP/2.0 <code> <reason>` gives that code and no method, and 0 when `int()` rejects the code for its length |
| SipParse.RequestLineMethod | backend/sip_debug.py:197-200 | a request line `<METHOD> <uri> SIP/2.0` gives that method and status 0 |
| SipParse.HeaderValue | backend/sip_debug.py:19-22 | a header value is stripped and holds no line break |
| SipParse.HeaderValueFirstLine | backend/sip_debug.py:203-211 | a header on its own line, in any letter case, is read as its value without the CRLF |
| SipParse.HeaderAfterSkipsLine | backend/sip_debug.py:19-22 | the search skips a line that does not start with the header name |
| SipParse.Locate | backend/sip_debug.py:152-181 | without a header line the whole output is the message text, received now from an unknown address |
| SipParse.LocateAfter | backend/sip_debug.py:171-181 | after a header line the direction and address are the header's, and the entry is dropped exactly when its epoch converts and overflows time_t |
| SipParse.ParseDetail | backend/sip_debug.py:143-214 | an entry yields a message only from non-empty output, with non-empty text and a Call-ID read from that text |
| SipParse.MessageFrom | backend/sip_debug.py:183-227 | the message exists exactly when the text is non-empty and has a Call-ID, and carries the text, time, direction, address and the Call-ID, From and To values |
| SipParse.ParseDetailWithoutHeader | backend/sip_debug.py:165-170 | output without a header line that has a Call-ID becomes a message whose text is the whole output, received now from "" |
| SipParse.ParseDetailVia | backend/sip_debug.py:143-227 | an entry's message is the one built from what the header search located |
| SipParse.LocateEntry | backend/sip_debug.py:152-181 | the header search of the entry fetch computes `Locate` |
| SipParse.ReadAfterHeader | backend/sip_debug.py:171-181 | the code after a found header computes `LocateAfter` |
| SipParse.ParseEntry | backend/sip_debug.py:143-214 | the entry fetch up to storing computes `ParseDetail` |
| SipParse.BuildMessage | backend/sip_debug.py:183-227 | the code after the header search computes `MessageFrom` |
| SipDebug.MessagesFor | backend/sip_debug.py:231-233 | a call's list holds only messages of that call, no more than are stored |
| SipDebug.IndexOf | backend/sip_debug.py:57 | the index has a key for exactly the Call-IDs of the stored messages |
| SipDebug.MessagesForEmpty | backend/sip_debug.py:244-245 | a call's list is empty exactly when no stored message belongs to it |
| SipDebug.IndexOfNonEmpty | backend/sip_debug.py:244-245 | no list in the index is empty |
| SipDebug.RemoveFirst | backend/sip_debug.py:240-243 | `list.remove` takes one element out when it is present and leaves the list alone (ValueError ignored) otherwise |
| SipDebug.Retain | backend/sip_debug.py:245 | the kept keys are those of the order that are in the set, in the order's order |
| SipDebug.Without | backend/sip_debug.py:245 | `del` leaves every other key |
| SipDebug.EvictHead | backend/sip_debug.py:237-241 | the oldest message heads its call's list, so `remove` takes exactly it |
| SipDebug.EvictDropCall | backend/sip_debug.py:244-245 | when the oldest message was its call's last, deleting the call leaves the index of the remaining messages |
| SipDebug.EvictKeepCall | backend/sip_debug.py:239-243 | otherwise the call keeps the rest of its list and the index is that of the remaining messages |
| SipDebug.StoreNewCall | backend/sip_debug.py:230-233 | a message of a new call starts a list of its own |
| SipDebug.StoreKnownCall | backend/sip_debug.py:230-233 | a message of a known call goes at the end of that call's list |
| SipDebug.NewCallConsistent | backend/sip_debug.py:230-233 | indexing a new call's message keeps the index equal to the one the queue determines, with the call last in key order |
| SipDebug.KnownCallConsistent | backend/sip_debug.py:230-233 | indexing a known call's message keeps the index consistent with the queue and the key order unchanged |
| SipDebug.KeepNewest | backend/sip_debug.py:235-237 | the cap keeps the newest messages: a suffix of at most 10000, all of them when there are no more |
| SipDebug.DropExpired | backend/sip_debug.py:277-279 | expiry leaves a queue that does not start with an expired message |
| SipDebug.Stored | backend/sip_debug.py:229-245 | after storing, the queue holds at most 10000 messages and ends with the new one |
| SipDebug.Cleaned | backend/sip_debug.py:275-287 | after expiry no stored message is older than two hours before `now` at the front |
| SipDebug.FirstBatch | backend/sip_debug.py:134 | a batch is the first at most 50 new entries and is non-empty when there are new entries |
| SipDebug.PrimaryMethod | backend/sip_debug.py:297-301 | the primary method is a method one of the call's messages has, and "" exactly when all of them are responses |
| SipDebug.FindPrimaryMethod | backend/sip_debug.py:297-301 | the loop stops at the first message with a method and returns it |
| SipDebug.Summarize | backend/sip_debug.py:296-309 | a call's summary has its Call-ID, its message count and the time of its first message |
| SipDebug.Summaries | backend/sip_debug.py:293-309 | at most one summary per listed call |
| SipDebug.SummarizeCalls | backend/sip_debug.py:292-309 | the loop over the index's items, skipping empty lists, builds exactly the summaries in key order |
| SipDebug.SummariesComplete | backend/sip_debug.py:293-309 | when every call has messages, each call gets exactly one summary, in key order |
| SipDebug.SipDebugBuffer.Enable | backend/sip_debug.py:65-77 | refused (nothing changes) when AMI is down; otherwise capture is on and entry numbering restarts, with the stored messages unchanged |
| SipDebug.SipDebugBuffer.Disable | backend/sip_debug.py:80-91 | capture is off and nothing else changes |
| SipDebug.SipDebugBuffer.DropCall | backend/sip_debug.py:244-245 | deleting an emptied call keeps the index consistent and removes it from key order |
| SipDebug.SipDebugBuffer.ShrinkCall | backend/sip_debug.py:239-243 | the oldest message's call keeps the rest of its list and its place in key order |
| SipDebug.SipDebugBuffer.EvictOldest | backend/sip_debug.py:237-245 | popping the oldest message drops exactly it, keeps the index consistent and keeps the other calls in key order |
| SipDebug.SipDebugBuffer.Store | backend/sip_debug.py:229-245 | the new state is `Stored` of the old one |
| SipDebug.SipDebugBuffer.EnforceCap | backend/sip_debug.py:235-245 | popping while over the cap leaves the newest 10000 messages |
| SipDebug.SipDebugBuffer.Append | backend/sip_debug.py:229-233 | the message is appended to the queue and to its call's list; a new call goes last in key order |
| SipDebug.SipDebugBuffer.AddCall | backend/sip_debug.py:231-233 | a new call's list is the message alone and the call goes last in key order |
| SipDebug.SipDebugBuffer.ExtendCall | backend/sip_debug.py:233 | a known call's list gets the message at its end; key order is unchanged |
| SipDebug.SipDebugBuffer.CleanupOld | backend/sip_debug.py:275-287 | the new state is `Cleaned` of the old one at `now` |
| SipDebug.SipDebugBuffer.FetchEntryDetail | backend/sip_debug.py:143-245 | an entry dump's message, if any, is stored; otherwise nothing changes |
| SipDebug.SipDebugBuffer.FetchNewEntries | backend/sip_debug.py:104-141 | nothing changes when AMI is down, the listing is empty or no entry is new; otherwise the first 50 new entries are fetched in order, the last entry number becomes their maximum and old messages expire |
| SipDebug.SipDebugBuffer.Poll | backend/sip_debug.py:132-141 | fetching a batch of new entries, then remembering their maximum and expiring |
| SipDebug.SipDebugBuffer.FetchEntry | backend/sip_debug.py:134-138 | an entry whose request failed changes nothing; otherwise its dump is parsed and stored |
| SipDebug.SipDebugBuffer.FetchBatch | backend/sip_debug.py:134-138 | the batch is fetched entry by entry, in order |
| SipDebug.SipDebugBuffer.GetCalls | backend/sip_debug.py:289-311 | expires old messages, then returns the call summaries newest first by first message |
| SipDebug.SipDebugBuffer.GetCallMessages | backend/sip_debug.py:313-330 | expires old messages, then returns the call's messages oldest first, none for an unknown call |
| SipDebug.SipDebugBuffer.Clear | backend/sip_debug.py:332-336 | no message and no call remain, and entry numbering restarts |
| SipDebug.PollAdvances | backend/sip_debug.py:126-140 | a poll that fetched anything moves the last entry number strictly forward |
| SipDebug.DeferredEntriesNotLost | backend/sip_debug.py:134-140 | with an ascending listing, the entries beyond the batch are all above its maximum, so the next poll still finds them |
| SipDebug.StoredKeepsAllButOldest | backend/sip_debug.py:229-237 | storing appends the message and drops at most the oldest one, none while below the cap |
| SipDebug.DropExpiredPrefix | backend/sip_debug.py:277-279 | expiry removes a prefix of the queue, and only messages older than the cutoff |
| SipDebug.CleanedIsSuffix | backend/sip_debug.py:275-287 | after expiry the queue is a suffix of the old one, and everything removed was older than two hours |
| SipDebug.CallsOrdered | backend/sip_debug.py:289-311 | the calls list is sorted newest first, is a permutation of the summaries with one per call, and calls with equal times keep the index's key order |
| SipDebug.SipDebugBuffer.constructor | backend/sip_debug.py:54-60 | a new buffer is disabled, stores nothing and has no entry polled |
| Cdr.Matching | backend/routers/cdr.py:66-78 | the filtered rows are rows of the table that pass every supplied filter, and every such row is kept |
| Cdr.ListCdr | backend/routers/cdr.py:52-82 | a limit outside 1..500 or a negative offset is refused with 422; otherwise the page of matching rows |
| Cdr.ListCdrSound | backend/routers/cdr.py:66-81 | every listed row is a matching table row, the page is newest first and holds no more than the limit or the count |
| Cdr.CountCdr | backend/routers/cdr.py:85-110 | the count is at most the number of rows |
| Cdr.CountIsUnpagedList | backend/routers/cdr.py:85-110 | the count is the length of the whole unpaged list, which holds each matching row as often as the table does and no other row |
| Cdr.CountIsFullList | backend/routers/cdr.py:81-110 | when one page from the start can hold every match, the list is exactly the matching rows and its length is the count |
| Cdr.ListCdrPagesTile | backend/routers/cdr.py:81 | page k followed by page k + 1 is the double-size page k, so paging loses and repeats nothing |
| Cdr.NoFilterKeepsAll | backend/routers/cdr.py:69-78 | with no filter supplied every row matches |
| Cdr.SourceFilterIsSubstring | backend/routers/cdr.py:69-70 | a source filter without `%` or `_` keeps exactly the rows whose source contains it, ignoring ASCII case |
| Cdr.EpochDay | backend/routers/cdr.py:117-118 | day 0 is 1970-01-01 |
| Cdr.DayNumberNext | backend/routers/cdr.py:117-120 | the calendar counts days: the next date has the next day number |
| Cdr.Weekday | backend/routers/cdr.py:119 | the weekday is one of 0..6 |
| Cdr.MondayBefore | backend/routers/cdr.py:119 | going back `weekday()` days lands on a Monday, at most six days back |
| Cdr.StartsOrdered | backend/routers/cdr.py:117-120 | the week and the month start no later than today, and the week's start is the Monday of the week, at most six days back |
| Cdr.CountSince | backend/routers/cdr.py:136-138 | a time-based count is at most the number of rows |
| Cdr.CountSinceMonotone | backend/routers/cdr.py:136-138 | a later start counts no more calls |
| Cdr.CountDisposition | backend/routers/cdr.py:124-127 | a disposition count is at most the number of rows |
| Cdr.DispositionsWithinTotal | backend/routers/cdr.py:123-127 | the answered, missed, busy and failed counts together are at most the total |
| Cdr.BillsecWithinDuration | backend/routers/cdr.py:130-131 | where no call bills more than it lasted, the billed total is at most the total duration |
| Cdr.TimeCountsOrdered | backend/routers/cdr.py:136-138 | a call of today is counted for this week and this month too |
| Cdr.GetCdrStats | backend/routers/cdr.py:113-153 | the statistics count the whole table, the disposition counts fit within it, and today's count is within the week's and the month's |
| Cdr.GetRecentCalls | backend/routers/cdr.py:156-176 | the count is the number of entries returned, at most the limit and the table |
| Cdr.RecentIsFirstPage | backend/routers/cdr.py:156-176 | the widget's entries are the first unfiltered page of the list, newest first |
| Voicemail.LineEntry | backend/routers/voicemail.py:37-38 | a line yields an entry exactly when it holds `=`; the key is the stripped line up to its first `=` and the value all that follows |
| Voicemail.StripKeepsEquals | backend/routers/voicemail.py:37-38 | stripping removes only whitespace, so a line holding `=` still holds it after `strip()` |
| Voicemail.UniversalNewlines | backend/routers/voicemail.py:35 | reading in text mode leaves no carriage return in the text: CRLF and a lone CR each become a newline |
| Voicemail.NoCarriageReturnRead | backend/routers/voicemail.py:35 | text without a carriage return is read as it is |
| Voicemail.PlainCharRead | backend/routers/voicemail.py:35 | a character other than a carriage return is read as it is |
| Voicemail.LoneCarriageReturnRead | backend/routers/voicemail.py:35 | a carriage return not followed by a newline is read as a newline |
| Voicemail.CrLfRead | backend/routers/voicemail.py:35 | CRLF is read as a single newline |
| Voicemail.LoneCarriageReturn | backend/routers/voicemail.py:35 | a lone carriage return after a piece without one is read as a newline after that piece |
| Voicemail.CarriageReturnEndsLine | backend/routers/voicemail.py:35-36 | two lines joined by a lone carriage return are read as those two lines, as they would be if joined by a newline |
| Voicemail.ParseVoicemailInfo | backend/routers/voicemail.py:32-42 | an unreadable file gives the empty dictionary; otherwise the dictionary the file's lines build |
| Voicemail.InfoKeys | backend/routers/voicemail.py:36-39 | a key is in the info dictionary exactly when some line defines it |
| Voicemail.InfoLastWins | backend/routers/voicemail.py:39 | the value of a key comes from the last line that defines it |
| Voicemail.AudioExt | backend/routers/voicemail.py:67-72 | the extension found is the first of .wav, .WAV, .wav49 whose audio file exists; none when none exists |
| Voicemail.FindAudio | backend/routers/voicemail.py:68-72 | the loop over the extensions stops at the first audio file that exists |
| Voicemail.FromTimestamp | backend/routers/voicemail.py:79 | `datetime.fromtimestamp` gives the local time, the timestamp shifted by the zone's offset, exactly when that time is at most the end of year 9999 and at least one day (the fold probe) after the start of year 1; otherwise it raises |
| Voicemail.RecentOrigtimeAccepted | backend/routers/voicemail.py:79 | any origtime from 1970 to 2100 converts in any zone within a day of UTC |
| Voicemail.FarOrigtimeRejected | backend/routers/voicemail.py:79 | the origtime 300000000000, past year 9999, makes `fromtimestamp` raise in any such zone |
| Voicemail.NewRecord | backend/routers/voicemail.py:75-84 | the new row has caller "Unknown" and duration 0 when the info lacks them, the UTC clock as date without an origtime and otherwise the instant `fromtimestamp` gives for the parsed origtime, and is read exactly when it comes from Old. It exists exactly when `int()` accepts the duration and origtime given and `fromtimestamp` accepts that origtime |
| Voicemail.SyncExtends | backend/routers/voicemail.py:44-86 | a completed sync only appends rows: existing rows are untouched, new rows come from INBOX or Old with consecutive fresh ids, and no duplicate (mailbox, msg_id, folder) appears |
| Voicemail.ImportFilesExtends | backend/routers/voicemail.py:55-85 | the file loop of one folder only appends imported rows |
| Voicemail.ImportFoldersExtends | backend/routers/voicemail.py:51-85 | the folder loop of one mailbox only appends imported rows |
| Voicemail.ImportMailboxesExtends | backend/routers/voicemail.py:47-85 | the mailbox loop of the spool only appends imported rows |
| Voicemail.RecordedIsSkipped | backend/routers/voicemail.py:58-64 | a message whose (mailbox, msg_id, folder) is already recorded is not imported again |
| Voicemail.SilentIsSkipped | backend/routers/voicemail.py:73-74 | a message without any of the three audio files is skipped |
| Voicemail.SyncFolder | backend/routers/voicemail.py:55 | the loop over a folder listing computes the fold over its files |
| Voicemail.SyncFile | backend/routers/voicemail.py:56-85 | one file is skipped, imported, or makes the sync fail exactly as `ImportFile` defines |
| Voicemail.SyncMailbox | backend/routers/voicemail.py:48-54 | the loop over INBOX and Old computes the fold over the mailbox's folders, skipping a missing one |
| Voicemail.SyncSpool | backend/routers/voicemail.py:44-50 | the loop over the spool computes the whole sync, skipping entries that are not directories |
| Voicemail.ImportFilesFail | backend/routers/voicemail.py:78-79 | once `int()` fails on one file, the whole folder, and with it the request, fails |
| Voicemail.ImportFoldersFail | backend/routers/voicemail.py:51-85 | a failing folder fails its mailbox |
| Voicemail.ImportMailboxesFail | backend/routers/voicemail.py:47-85 | a failing mailbox fails the sync |
| Voicemail.Views | backend/routers/voicemail.py:97 | one view per row, in row order |
| Voicemail.ListedRowsSound | backend/routers/voicemail.py:91-96 | the query returns each row passing the mailbox and unread filters as often as it occurs, no other row, newest first |
| Voicemail.ListSound | backend/routers/voicemail.py:88-97 | the list holds exactly the views of the rows that pass the filters, newest first |
| Voicemail.MailboxesOf | backend/routers/voicemail.py:105 | the grouped mailboxes are exactly the mailboxes of the rows, each once |
| Voicemail.StatsOf | backend/routers/voicemail.py:102-108 | the unread count never exceeds the total |
| Voicemail.ByMailboxSumsToTotal | backend/routers/voicemail.py:102-107 | the per-mailbox counts count all messages, read or not: they add up to the total |
| Voicemail.MarkedRead | backend/routers/voicemail.py:119-127 | an unknown id gives 404 and changes nothing; otherwise only `is_read` of that row becomes true and the reply is its view |
| Voicemail.MarkReadIdempotent | backend/routers/voicemail.py:124 | marking a message read twice is marking it once |
| Voicemail.RemovedFiles | backend/routers/voicemail.py:134-139 | a delete removes something exactly when the audio file exists, the audio file first; the info file goes exactly when both exist, and no file is removed twice (a path without ".wav" is its own info path) |
| Voicemail.DeletedRow | backend/routers/voicemail.py:129-144 | an unknown id gives 404 and changes nothing; otherwise exactly that row goes, whatever happened to the files |
| Voicemail.DeleteRemovesOne | backend/routers/voicemail.py:142-143 | a delete removes one row and keeps every row with another id |
| Voicemail.VoicemailStore.Sync | backend/routers/voicemail.py:44-86 | the table becomes the completed sync's rows, or stays as it was when the sync fails |
| Voicemail.VoicemailStore.ListVoicemails | backend/routers/voicemail.py:88-97 | the sync runs first; a failed sync answers 500 and keeps the table, otherwise the reply is the filtered list of the synced table; the id counter is the sync's, or unchanged when it fails |
| Voicemail.VoicemailStore.GetStats | backend/routers/voicemail.py:99-108 | the sync runs first; a failed sync answers 500, otherwise the reply is the statistics of the synced table; the id counter is the sync's, or unchanged when it fails |
| Voicemail.VoicemailStore.MarkAsRead | backend/routers/voicemail.py:119-127 | the reply and the new table are those of `MarkedRead` |
| Voicemail.VoicemailStore.DeleteVoicemail | backend/routers/voicemail.py:129-144 | the reply and the new table are those of `DeletedRow`, and the files removed are those of `RemovedFiles` |
| Settings.OrEmpty | backend/routers/settings.py:56 | `value or ""`: the value when it is present and not empty, otherwise the empty text |
| Settings.PasswordMasked | backend/routers/settings.py:53-54 | the stored password never shows: a non-empty one reads "****", anything else the empty text, both directions |
| Settings.DefaultsShown | backend/routers/settings.py:57-63 | keys without a row show "587" for the port, "true" for TLS and the empty text for the rest |
| Settings.Dump | backend/routers/settings.py:30-36 | `model_dump()` gives the six SMTP fields under their keys, in declaration order |
| Settings.UpsertedKeys | backend/routers/settings.py:82-88 | an upsert creates exactly the keys it is given and leaves every other row as it was |
| Settings.UpsertedLast | backend/routers/settings.py:84-87 | the last pair for a key decides its stored value, `value or ""` |
| Settings.SavedRows | backend/routers/settings.py:74-90 | after a save each SMTP key holds the submitted value or "", the password keeps the stored value when "****" is submitted and a password row exists, and rows for other keys are untouched |
| Settings.ShownPasswordKept | backend/routers/settings.py:76-80 | sending back the masked password a GET showed keeps the stored password |
| Settings.KnownCodecs | backend/routers/settings.py:20-27 | the known codec ids are exactly ulaw, alaw, g722, opus, g729 and gsm |
| Settings.Trimmed | backend/routers/settings.py:161 | each kept piece is stripped and not empty |
| Settings.Normalised | backend/routers/settings.py:161 | the codec list of a submitted string holds stripped non-empty names without commas |
| Settings.TrimmedExcludes | backend/routers/settings.py:161 | trimming adds no character to a piece |
| Settings.TrimmedNoop | backend/routers/settings.py:161 | stripped non-empty pieces come through the trim unchanged |
| Settings.FirstUnknown | backend/routers/settings.py:164-166 | the codec reported is the first in list order that is not known; none exactly when all are known |
| Settings.CodecUpdate | backend/routers/settings.py:152-182 | the update succeeds exactly when the list is non-empty and every codec is known, fails with 400 otherwise, and stores the comma-joined list |
| Settings.CodecRoundTrip | backend/routers/settings.py:161-170 | the stored codec string normalises to the very list that was validated, order and repeats kept |
| Settings.SettingsStore.GetSettings | backend/routers/settings.py:43-64 | the reply has exactly the six SMTP keys, each as `Shown` defines it |
| Settings.SettingsStore.UpdateSettings | backend/routers/settings.py:67-107 | the table becomes `Saved` of the old table, and the mail configuration is rewritten exactly when a host is then set |
| Settings.SettingsStore.TestEmail | backend/routers/settings.py:110-132 | 400 without a host, 500 when sending fails, success exactly when a host is set and the mail is sent, with the confirmation text |
| Settings.SettingsStore.GetCodecSettings | backend/routers/settings.py:139-149 | the stored codec string, or the default list without a row, beside the known codecs |
| Settings.SettingsStore.UpdateCodecSettings | backend/routers/settings.py:152-182 | the reply is `CodecUpdate`; only an accepted list is stored, and a rejected one changes nothing |
| Audit.Filtered | backend/routers/audit.py:26-30 | the filtered log holds exactly the rows whose action and username equal the supplied non-empty filters |
| Audit.Entry | backend/routers/audit.py:38-47 | an entry's details are null exactly when the stored details are absent or empty; the timestamp is carried over |
| Audit.Entries | backend/routers/audit.py:37-49 | one entry per page row, in page order |
| Audit.GetAuditLogs | backend/routers/audit.py:16-50 | a limit outside 1..500 or a negative offset is refused with 422; otherwise the reply is the filtered total and a page of it |
| Audit.TotalIgnoresPaging | backend/routers/audit.py:32 | the total counts every matching row, whatever limit and offset are asked for |
| Audit.PageSound | backend/routers/audit.py:32-33 | the page holds at most limit entries and no more than the total, each of a matching row, newest first |
| Audit.UnfilteredTotal | backend/routers/audit.py:26-32 | without filters the total is the size of the whole log |
| Users.NewUser | backend/routers/users.py:59-65 | the inserted row keeps name and role; a missing or empty full name becomes the user name, a missing or empty e-mail becomes name@gonopbx.local |
| Users.Created | backend/routers/users.py:46-69 | a taken name is refused with 400 and changes nothing; otherwise the new row is appended and returned |
| Users.Removed | backend/routers/users.py:72-90 | an unknown id gives 404 and the admin account 400, both leaving the table unchanged |
| Users.CreateKeepsNamesUnique | backend/routers/users.py:52-57 | creating never leaves two users with one name |
| Users.CreateAddsName | backend/routers/users.py:59-68 | creating with a fresh name adds exactly one row, findable by its name |
| Users.AdminNeverDeleted | backend/routers/users.py:82-86 | a user named "admin" survives every delete request |
| Users.DeleteRemovesExactly | backend/routers/users.py:78-89 | a successful delete removes one row with that id that is not the admin account; the others stay, in order |
| Users.DeleteKeepsNamesUnique | backend/routers/users.py:88-89 | deleting keeps the names unique |
| Users.UserTable.ListUsers | backend/routers/users.py:38-43 | the listing is every row of the table, in storage order |
| Users.UserTable.CreateUser | backend/routers/users.py:46-69 | the new table and reply are those of `Created`, and the id counter advances only on success |
| Users.UserTable.DeleteUser | backend/routers/users.py:72-90 | the new table and reply are those of `Removed`; the id counter is untouched |
| CdrPage.Lookup | frontend/src/pages/CDRPage.tsx:38-42 | `URLSearchParams.get` finds nothing exactly when no pair has the name |
| CdrPage.LookupAppend | frontend/src/pages/CDRPage.tsx:38-42 | a name is looked up in the earlier appended pairs first |
| CdrPage.BuildQuery | frontend/src/pages/CDRPage.tsx:38-42 | the parameters built are `limit=100`, then src, dst and disposition, each appended exactly when non-empty |
| CdrPage.QueryLookup | frontend/src/pages/CDRPage.tsx:38-42 | looking a name up in the query looks it up in each appended part in turn |
| CdrPage.QueryFilterLookups | frontend/src/pages/CDRPage.tsx:40-42 | each filter is in the query under its own name exactly when it is non-empty |
| CdrPage.QueryKeys | frontend/src/pages/CDRPage.tsx:38-42 | the query starts with limit=100, carries each filter exactly when it is non-empty, and no other name |
| CdrPage.NamesDistinct | frontend/src/pages/CDRPage.tsx:39-42 | the four parameter names are distinct |
| CdrPage.ServerFilter | frontend/src/pages/CDRPage.tsx:45 | the server reads no date range from the page's query |
| CdrPage.QueryFiltersAsShown | frontend/src/pages/CDRPage.tsx:35-47 | a record is listed for the page's query exactly when it passes each non-empty filter as typed: substring for source and destination, upper-cased equality for the status |
| CdrPage.ClearedQueryListsAll | frontend/src/pages/CDRPage.tsx:38-45 | with every field empty the page asks for the first 100 rows of the whole table |
| CdrPage.ChoicesSelectExactly | frontend/src/pages/CDRPage.tsx:195-199 | each status option is already upper case, so it selects exactly the records with that disposition |
| CdrPage.UpperNoop | frontend/src/pages/CDRPage.tsx:195-199 | upper-casing text without lower-case letters leaves it as it is |
| CdrPage.DispositionStyle | frontend/src/pages/CDRPage.tsx:91-104 | gray exactly for a value that is not one of the four known dispositions, null included |
| CdrPage.StylesDistinct | frontend/src/pages/CDRPage.tsx:91-104 | the four known dispositions show four different badge styles |
| CdrPage.DispositionIcon | frontend/src/pages/CDRPage.tsx:106-117 | the default icon shows exactly for values other than ANSWERED, NO ANSWER and BUSY, so FAILED shares it |
| CdrPage.DispositionLabel | frontend/src/pages/CDRPage.tsx:272 | the badge text is never empty and reads "Unknown" exactly for null, empty or the literal "Unknown" |
| CdrPage.FormatDuration | frontend/src/pages/CDRPage.tsx:73-78 | null reads "0:00"; a non-negative value renders so that reading it back gives the seconds |
| CdrPage.ZeroRendering | frontend/src/pages/CDRPage.tsx:74 | the special case for zero agrees with the general rendering: "0:00" |
| CdrPage.FormatDurationIsMinSec | frontend/src/pages/CDRPage.tsx:73-78 | the cell is always the m:ss rendering of the value, null counting as 0 |
| CdrPage.View | frontend/src/pages/CDRPage.tsx:245-275 | a row is keyed by the record id, shows a date exactly when one is stored, "-" for a missing source or destination, and never an empty badge |
| CdrPage.Body | frontend/src/pages/CDRPage.tsx:227-246 | the loading text while loading, "no calls found" for an empty list, otherwise one row per record in order |
| CdrPage.CdrPageState.SetFilters | frontend/src/pages/CDRPage.tsx:170-192 | the inputs set the filters and nothing else |
| CdrPage.CdrPageState.StartFetchWith | frontend/src/pages/CDRPage.tsx:35-47 | loading starts, the record query is built from the filters the closure saw, and the statistics request carries no filter |
| CdrPage.CdrPageState.StartFetch | frontend/src/pages/CDRPage.tsx:58-64 | the search button and the first effect fetch with the current filters |
| CdrPage.CdrPageState.FinishFetch | frontend/src/pages/CDRPage.tsx:44-55 | both replies replace records and statistics together, a failure keeps both, and loading ends either way |
| CdrPage.CdrPageState.ClearFilters | frontend/src/pages/CDRPage.tsx:66-71 | the fields become empty, but the delayed refetch is the closure of the old render and sees the old filters |
| CdrPage.ClearFiltersRefetchesStale | frontend/src/pages/CDRPage.tsx:66-71 | after clearing a source filter "1001", the refetch still asks for src=1001, which differs from the cleared query |
| CdrPage.CdrPageState.ClearFiltersAndRefetch | frontend/src/pages/CDRPage.tsx:66-71 | the corrected reset: the fields are empty and the refetch asks for the unfiltered first page |
| VoicemailPage.ParamsFor | frontend/src/pages/VoicemailPage.tsx:38-44 | `mailbox` is sent exactly when a mailbox other than "all" is chosen, `unread_only=true` exactly when the toggle is on |
| VoicemailPage.BuildParams | frontend/src/pages/VoicemailPage.tsx:38-44 | the parameters built one condition at a time are those of `ParamsFor` |
| VoicemailPage.ParamsSelect | frontend/src/pages/VoicemailPage.tsx:35-46 | a stored message is listed for the page's request exactly when it is in the chosen mailbox and, with the toggle on, unread |
| VoicemailPage.InitialScopeListsAll | frontend/src/pages/VoicemailPage.tsx:26-33 | the first scope asks for every stored message, newest first |
| VoicemailPage.WithoutId | frontend/src/pages/VoicemailPage.tsx:84 | no message with the deleted id is left |
| VoicemailPage.WithoutIdExact | frontend/src/pages/VoicemailPage.tsx:84 | the filter drops every message with that id and keeps every other one as often as it occurred |
| VoicemailPage.WithoutIdIdempotent | frontend/src/pages/VoicemailPage.tsx:84 | a list without the id is left as it is, and filtering twice is filtering once |
| VoicemailPage.FormatDuration | frontend/src/pages/VoicemailPage.tsx:94-98 | a non-negative duration renders so that reading it back gives the seconds |
| VoicemailPage.Bucket | frontend/src/pages/VoicemailPage.tsx:103-114 | under an hour counts minutes, under a day hours, under a week days, anything older the absolute date; each count is the floor of the difference in its unit |
| VoicemailPage.Floor | frontend/src/pages/VoicemailPage.tsx:104-106 | division by a positive divisor here is `Math.floor(x / d)` |
| VoicemailPage.BucketMonotone | frontend/src/pages/VoicemailPage.tsx:103-114 | an older message never lands in a finer bucket, nor a smaller count within the same one |
| VoicemailPage.AgeText | frontend/src/pages/VoicemailPage.tsx:108-114 | the texts "vor n Min.", "vor n Std.", "vor n Tag" or "vor n Tagen", the plural exactly above one day |
| VoicemailPage.OneDayIsSingular | frontend/src/pages/VoicemailPage.tsx:112-113 | between one and seven days the text is "vor n Tag", with "en" added from two days on |
| VoicemailPage.ObjectKeysPermutes | frontend/src/pages/VoicemailPage.tsx:125 | `Object.keys` rearranges the property names and adds or drops none |
| VoicemailPage.ObjectKeysOrder | frontend/src/pages/VoicemailPage.tsx:125 | names that are array indices come first in ascending value, the other names follow in insertion order |
| VoicemailPage.IndexBlock | frontend/src/pages/VoicemailPage.tsx:125 | the index names, sorted, ascend by numeric value |
| VoicemailPage.ObjectKeysOfNames | frontend/src/pages/VoicemailPage.tsx:125 | without index-like names the keys come in insertion order |
| VoicemailPage.Mailboxes | frontend/src/pages/VoicemailPage.tsx:125 | the buttons start with "all", and are only "all" before statistics arrive |
| VoicemailPage.MailboxesFromServer | frontend/src/pages/VoicemailPage.tsx:125 | after the server's statistics the buttons are "all" and each mailbox that has messages, each once |
| VoicemailPage.MailboxButton | frontend/src/pages/VoicemailPage.tsx:152-164 | "Alle Mailboxen" for "all", "Mailbox n" otherwise; a count badge shows exactly when the statistics hold a non-zero count for that mailbox, and then shows that count |
| VoicemailPage.ItemOf | frontend/src/pages/VoicemailPage.tsx:199-229 | an item is keyed by id, marked new exactly when unread, never shows an empty caller, and is selected and shows the player exactly when it is the selected message |
| VoicemailPage.ContentOf | frontend/src/pages/VoicemailPage.tsx:182-199 | the spinner while loading, the empty state worded after the toggle for an empty list, otherwise one item per message in order |
| VoicemailPage.AtMostOnePlayer | frontend/src/pages/VoicemailPage.tsx:222 | with distinct ids the player shows under at most one message |
| VoicemailPage.VoicemailPageState.StartFetchVoicemails | frontend/src/pages/VoicemailPage.tsx:35-46 | loading starts and the request carries the parameters of the scope the closure saw |
| VoicemailPage.VoicemailPageState.FinishFetchVoicemails | frontend/src/pages/VoicemailPage.tsx:46-57 | an array body becomes the list, any other body or an error empties it, and loading ends |
| VoicemailPage.VoicemailPageState.FinishFetchStats | frontend/src/pages/VoicemailPage.tsx:60-67 | a reply replaces the statistics, an error keeps the old ones |
| VoicemailPage.VoicemailPageState.ChangeScope | frontend/src/pages/VoicemailPage.tsx:30-33 | a changed mailbox or toggle refetches the list for the new scope and the statistics; an unchanged one fetches nothing |
| VoicemailPage.VoicemailPageState.ClickMessage | frontend/src/pages/VoicemailPage.tsx:203-208 | a click selects the message and asks to mark it read exactly when it is unread |
| VoicemailPage.VoicemailPageState.FinishMarkRead | frontend/src/pages/VoicemailPage.tsx:69-77 | success refetches the list for the scope seen at the click and the statistics; failure changes nothing |
| VoicemailPage.VoicemailPageState.StartDelete | frontend/src/pages/VoicemailPage.tsx:79-80 | nothing happens unless the dialog is confirmed |
| VoicemailPage.VoicemailPageState.FinishDelete | frontend/src/pages/VoicemailPage.tsx:82-91 | success sets the list to the issuing render's list without that id, clears a selection that had it and refetches the statistics; failure changes nothing |
| ActiveCalls.ItemKey | frontend/src/components/ActiveCalls.tsx:43 | the key is the channel when it is not empty, otherwise the decimal text of the position |
| ActiveCalls.Keys | frontend/src/components/ActiveCalls.tsx:42-43 | one key per call, in order |
| ActiveCalls.KeysDistinct | frontend/src/components/ActiveCalls.tsx:43 | distinct channels that do not read as numbers give every item a distinct key, empty channels included |
| ActiveCalls.NumericChannelCollides | frontend/src/components/ActiveCalls.tsx:43 | a channel "1" collides with the position key of an empty channel in second place |
| ActiveCalls.StateColor | frontend/src/components/ActiveCalls.tsx:67-76 | green exactly for connected, yellow exactly for ringing, gray exactly for any other state |
| ActiveCalls.StateIcon | frontend/src/components/ActiveCalls.tsx:78-87 | the crossed-out handset shows exactly for a ringing call |
| ActiveCalls.OrUnknown | frontend/src/components/ActiveCalls.tsx:98-100 | the caller or destination, or "Unknown" when it is empty: never empty, and a non-empty value is kept |
| ActiveCalls.FormatDuration | frontend/src/components/ActiveCalls.tsx:61-65 | the counter's rendering reads back as the number of seconds |
| ActiveCalls.ItemOf | frontend/src/components/ActiveCalls.tsx:89-114 | the elapsed time appears exactly for a connected call and shows the counter; caller and destination are never empty |
| ActiveCalls.WidgetOf | frontend/src/components/ActiveCalls.tsx:17-45 | "No active calls" exactly for an empty list, otherwise the count badge, whose number reads back as the number of calls, and one keyed item per call |
| ActiveCalls.CallItem.constructor | frontend/src/components/ActiveCalls.tsx:51-53 | a mounted item's counter starts at zero with the interval running |
| ActiveCalls.CallItem.Tick | frontend/src/components/ActiveCalls.tsx:54-56 | each interval tick raises the counter by one |
| ActiveCalls.CallItem.Receive | frontend/src/components/ActiveCalls.tsx:51-59 | new props for the same key keep the counter and the interval |
| ActiveCalls.CallItem.Unmount | frontend/src/components/ActiveCalls.tsx:57-58 | unmounting clears the interval, so no tick follows |
| SettingsPage.Field | frontend/src/pages/SettingsPage.tsx:41-46 | the server's value when it is present and not empty, otherwise the fallback |
| SettingsPage.ServerView | frontend/src/pages/SettingsPage.tsx:37 | the settings reply holds exactly the six SMTP keys, each as the server shows it |
| SettingsPage.LoadShowsServer | frontend/src/pages/SettingsPage.tsx:40-47 | the loaded form shows the server's values, "587"/"true" where port or TLS come back empty, and the password only as the mask or nothing |
| SettingsPage.ViewField | frontend/src/pages/SettingsPage.tsx:41-46 | one loaded field is the server's shown value, or the fallback when that is empty |
| SettingsPage.ShownPassword | frontend/src/pages/SettingsPage.tsx:45 | the password field holds the mask exactly when a password is stored, and nothing otherwise |
| SettingsPage.UpdateOf | frontend/src/pages/SettingsPage.tsx:65 | the save sends every field as it stands in the form |
| SettingsPage.LoadSaveKeepsPassword | frontend/src/pages/SettingsPage.tsx:40-65 | loading the form and saving it untouched keeps the stored password behind the mask |
| SettingsPage.WithText | frontend/src/pages/SettingsPage.tsx:151-200 | editing one text input sets that input's value; the other inputs and the TLS box keep theirs |
| SettingsPage.WithTextSame | frontend/src/pages/SettingsPage.tsx:151-200 | typing back the value an input already shows leaves the form unchanged |
| SettingsPage.WithTls | frontend/src/pages/SettingsPage.tsx:209-210 | ticking or clearing the box stores "true" or "false", and the box is ticked exactly after ticking; no other field changes |
| SettingsPage.ParseCodecs | frontend/src/pages/SettingsPage.tsx:49 | the selection read from the stored string holds non-empty names without commas |
| SettingsPage.ParseOfStored | frontend/src/pages/SettingsPage.tsx:49 | the list the server stored reads back as the selection it validated |
| SettingsPage.ToggleFlips | frontend/src/pages/SettingsPage.tsx:92-96 | a toggle flips the id's membership and keeps the other ids in the same order |
| SettingsPage.ToggleTwice | frontend/src/pages/SettingsPage.tsx:92-96 | toggling an unselected id twice gives the original selection back |
| SettingsPage.EmptySelectionAsServer | frontend/src/pages/SettingsPage.tsx:99-101 | the page's local refusal of an empty selection gives the message the server would answer with |
| SettingsPage.KnownCodecShape | frontend/src/pages/SettingsPage.tsx:107 | a known codec id is non-empty, without surrounding space or comma |
| SettingsPage.NormalisedOfJoin | frontend/src/pages/SettingsPage.tsx:107 | joining such names with commas and normalising the result gives the names back |
| SettingsPage.SaveCodecsAccepted | frontend/src/pages/SettingsPage.tsx:98-114 | a non-empty selection of known codecs is accepted, stored as sent, and reads back as the same selection |
| SettingsPage.ErrorText | frontend/src/pages/SettingsPage.tsx:68 | the error's message when it is not empty, otherwise the fallback text |
| SettingsPage.SettingsPageState.FinishLoad | frontend/src/pages/SettingsPage.tsx:33-57 | both replies fill the form and the codec lists, a failure sets the load error and keeps them; loading ends |
| SettingsPage.SettingsPageState.SetTls | frontend/src/pages/SettingsPage.tsx:210 | the checkbox handler applies `WithTls` to the form. Every other field of the page keeps its value. |
| SettingsPage.SettingsPageState.SetText | frontend/src/pages/SettingsPage.tsx:151 | a text input's handler applies `WithText` to the form; every other field of the page keeps its value |
| SettingsPage.SettingsPageState.SetTestEmail | frontend/src/pages/SettingsPage.tsx:241 | the recipient input sets the test address; every other field of the page keeps its value |
| SettingsPage.SettingsPageState.ToggleShowPassword | frontend/src/pages/SettingsPage.tsx:188 | the eye button flips whether the password is shown; every other field of the page keeps its value |
| SettingsPage.SettingsPageState.StartSave | frontend/src/pages/SettingsPage.tsx:59-65 | submitting clears both messages, sets saving and sends the whole form. Every other field of the page keeps its value. |
| SettingsPage.SettingsPageState.FinishSave | frontend/src/pages/SettingsPage.tsx:65-71 | success sets the saved message, failure the error text; saving ends. Every other field of the page keeps its value. |
| SettingsPage.SettingsPageState.StartTestEmail | frontend/src/pages/SettingsPage.tsx:74-83 | without an address only the error is set and nothing is sent; otherwise the messages clear and the mail goes to that address. Every other field of the page keeps its value. |
| SettingsPage.SettingsPageState.FinishTestEmail | frontend/src/pages/SettingsPage.tsx:83-89 | success names the address, failure sets the error text; testing ends. Every other field of the page keeps its value. |
| SettingsPage.SettingsPageState.Toggle | frontend/src/pages/SettingsPage.tsx:92-96 | the selection becomes `ToggleCodec` of the previous one. Every other field of the page keeps its value. |
| SettingsPage.SettingsPageState.StartSaveCodecs | frontend/src/pages/SettingsPage.tsx:98-107 | an empty selection only sets the error; otherwise the messages clear and the comma-joined selection is sent. Every other field of the page keeps its value. |
| SettingsPage.SettingsPageState.FinishSaveCodecs | frontend/src/pages/SettingsPage.tsx:107-113 | success sets the codec message, failure the error text; saving codecs ends. Every other field of the page keeps its value. |

## Left out

- AMI and asyncio plumbing are not modelled: `send_action`, the `_poll_loop` task with its three-second sleep, task cancellation, and `set_ami_client`. Each poll is one `Poll` call, and AMI answers are inputs.
- Logging is not modelled anywhere, because it has no effect on state.
- SQLAlchemy sessions, commits and refreshes are not modelled; each request works on sequence values. Autoflush is assumed, so the voicemail sync's dedupe sees rows added earlier in the same sync.
- The FastAPI authentication dependencies are not modelled (`get_current_user`, `require_admin`). Every request is taken as authorised.
- Pydantic type coercion of request bodies is not modelled: request fields arrive already typed.
- `avg_duration`, `avg_billsec` and their `round` are left out (backend/routers/cdr.py:132-133, 148-149), because they are floating point. So is `Math.round` for the average on the CDR page.
- Locale date formatting is left out (`toLocaleString`, `toLocaleDateString`). The CDR row records only whether a date is shown. The voicemail date yields `None` for the absolute bucket.
- `datetime.isoformat` and `datetime.utcnow` are left out: dates stay whole numbers. `datetime.fromtimestamp` is modelled as a shift by the zone's offset plus the range in which it raises. `get_calls` sorts on the ISO text of `first_seen`. Timestamps from whole seconds all share one ISO format, so the model sorts on the numbers instead.
- `json.loads` of the audit details is left out; the stored text is returned as it is.
- Password hashing (`get_password_hash`) is left out. The hash is an input of `CreateUser`.
- The configuration writers and reloads are left out: `write_msmtp_config`, `write_voicemail_config`, `reload_voicemail`, `write_pjsip_config` and `reload_asterisk`.
  - `UpdateSettings` reports only whether the mail configuration is rewritten.
  - The codec update stores the list; writing pjsip.conf is not modelled.
- `send_test_email` is left out. Its result is the `sent` input of `TestEmail`.
- `DEFAULT_CODECS` belongs to the pjsip configuration module and is not part of this model. It is the `defaultCodecs` parameter of `GetCodecSettings`.
- `get_voicemail_audio` is left out (backend/routers/voicemail.py:110-117), because it only streams a file.
- The voicemail tables store the mailbox, folder and file names exactly as listed. Directory iteration order is an input (`os.listdir` order).
- `os.remove` failures are not modelled separately. A delete removes the row whatever happens to the files, which is the source's behaviour.
- Text is ASCII only: whitespace, case mapping and `int()` are modelled for ASCII characters. Non-ASCII digits and whitespace, which Python also accepts, are left out.
- Text.PyInt: the 4300-digit cap is CPython's default since 3.11 and the 3.7.14, 3.8.14, 3.9.14 and 3.10.7 releases. An interpreter without the cap, or one where `sys.set_int_max_str_digits` changed it, is not modelled.
- LIKE patterns are modelled without an escape character. `%` and `_` typed into a CDR filter act as wildcards, as in the source. The substring lemmas are stated for filters without wildcards.
- Ties under `ORDER BY … DESC` have no order in SQL. The model keeps the table order among equal keys: a stable sort.
- Voicemail.ByMailbox: `GROUP BY` returns its groups in no specified order (backend/routers/voicemail.py:106). The model lists them in order of first appearance. The order of non-numeric mailbox buttons on the voicemail page follows from it.
- Voicemail.FromTimestamp: the zone's offset is a single number, the `utcOffset` of the clock. Daylight-saving changes, which shift the offset with the date, are not modelled.
- Audit.TimeKey: a NULL timestamp sorts last. Where NULL lands under DESC depends on the database. The audit writer always sets the timestamp (backend/audit.py:25), so such rows do not come from it.
- Voicemail.ParseVoicemailInfo: in the source, a decoding error part-way through a file is caught, and the keys read before it are kept. Text is ASCII here, so the model has no such case.
- Cdr.GetRecentCalls: the limit is a natural number. A negative `limit`, which the unchecked query parameter allows, is not modelled.
- JSX markup and styling are left out beyond the values the code computes: class names, captions, keys, badges and visibility conditions.
- The 100 ms `setTimeout` in `clearFilters` is reduced to the order of events. The fetch it runs is the stale closure, passed to `StartFetchWith`.
- axios parameter serialisation is left out: `unread_only=true` is the value `Some(true)` that the server reads.
- React batching and re-render timing are left out. Each handler's state updates are applied together when the handler returns or resumes.

## Findings

| source | as written | input that shows it | evidently intended | confidence | as-written member | corrected member |
|---|---|---|---|---|---|---|
| frontend/src/pages/CDRPage.tsx:66-71 | `clearFilters` empties the three filter fields, then runs `setTimeout(fetchCDR, 100)`. That `fetchCDR` is the closure of the current render, so it still reads the old filter values, and the refetch repeats the filtered query. | source filter "1001", then the reset button: the refetch sends `limit=100&src=1001` | the reset refetches the unfiltered first page (`limit=100` only) | not executed | CdrPage.CdrPageState.ClearFilters, CdrPage.ClearFiltersRefetchesStale | CdrPage.CdrPageState.ClearFiltersAndRefetch |
