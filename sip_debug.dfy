/**
 * The in-memory SIP capture buffer of backend/sip_debug.py: a bounded queue
 * of captured messages, an index from Call-ID to that call's messages (a
 * dictionary, so its keys keep their insertion order), the number of the last
 * history entry polled, and the polling, expiry and query operations.
 *
 * The AMI connection is replaced by its answers: whether it is connected,
 * the response to `pjsip show history`, and the responses to the entry
 * requests (an entry whose request fails is absent). The clock is the
 * parameter `now`, in whole seconds.
 */
module SipDebug {
  import opened Wrappers
  import opened Text
  import opened SipParse
  import Ordering

  /** The hard cap on stored messages. */
  const MaxMessages: nat := 10000

  /** Messages older than two hours are expired. */
  const MaxAgeSeconds: nat := 7200

  /** At most this many new history entries are fetched per poll. */
  const BatchSize: nat := 50

  // ---------------------------------------------------------------- the index

  /** The messages of one call, in capture order. */
  function MessagesFor(ms: seq<SipMessage>, c: string): (r: seq<SipMessage>)
    ensures |r| <= |ms|
    ensures forall i :: 0 <= i < |r| ==> r[i].callId == c
  {
    if ms == [] then []
    else (if ms[0].callId == c then [ms[0]] else []) + MessagesFor(ms[1..], c)
  }

  function CallIds(ms: seq<SipMessage>): set<string> {
    if ms == [] then {} else {ms[0].callId} + CallIds(ms[1..])
  }

  /** The index the queue determines: every call present, with all of its messages. */
  function IndexOf(ms: seq<SipMessage>): (idx: map<string, seq<SipMessage>>)
    ensures idx.Keys == CallIds(ms)
  {
    map c | c in CallIds(ms) :: MessagesFor(ms, c)
  }

  /** The keys an order lists. */
  function KeySet(order: seq<string>): set<string> {
    if order == [] then {} else {order[0]} + KeySet(order[1..])
  }

  lemma {:induction false} KeySetMembers(order: seq<string>)
    ensures forall c :: c in KeySet(order) <==> c in order
  {
    if order != [] {
      KeySetMembers(order[1..]);
    }
  }

  lemma {:induction false} KeySetSnoc(order: seq<string>, c: string)
    ensures KeySet(order + [c]) == KeySet(order) + {c}
  {
    if order != [] {
      assert (order + [c])[1..] == order[1..] + [c];
      KeySetSnoc(order[1..], c);
    }
  }

  /** No key occurs twice. */
  predicate Distinct(s: seq<string>) {
    s == [] || (s[0] !in s[1..] && Distinct(s[1..]))
  }

  /**
   * The representation invariant: the index is the one the queue determines,
   * and `order` lists its keys once each (the dictionary's key order).
   */
  ghost predicate Consistent(ms: seq<SipMessage>, idx: map<string, seq<SipMessage>>, order: seq<string>) {
    idx == IndexOf(ms) && Distinct(order) && KeySet(order) == CallIds(ms)
  }

  lemma {:induction false} MessagesForSnoc(ms: seq<SipMessage>, m: SipMessage, c: string)
    ensures MessagesFor(ms + [m], c) == MessagesFor(ms, c) + (if m.callId == c then [m] else [])
  {
    if ms != [] {
      assert (ms + [m])[1..] == ms[1..] + [m];
      MessagesForSnoc(ms[1..], m, c);
    }
  }

  lemma {:induction false} CallIdsSnoc(ms: seq<SipMessage>, m: SipMessage)
    ensures CallIds(ms + [m]) == CallIds(ms) + {m.callId}
  {
    if ms != [] {
      assert (ms + [m])[1..] == ms[1..] + [m];
      CallIdsSnoc(ms[1..], m);
    }
  }

  /** A call has messages exactly when it is present. */
  lemma {:induction false} MessagesForEmpty(ms: seq<SipMessage>, c: string)
    ensures MessagesFor(ms, c) == [] <==> c !in CallIds(ms)
  {
    if ms != [] {
      MessagesForEmpty(ms[1..], c);
    }
  }

  lemma {:induction false} CallIdsSuffix(ms: seq<SipMessage>, k: nat)
    requires k <= |ms|
    ensures CallIds(ms[k..]) <= CallIds(ms)
  {
    if k > 0 {
      CallIdsSuffix(ms[1..], k - 1);
      assert ms[1..][k - 1..] == ms[k..];
    }
  }

  /** Every list in the index is non-empty. */
  lemma {:induction false} IndexOfNonEmpty(ms: seq<SipMessage>)
    ensures forall c :: c in IndexOf(ms) ==> IndexOf(ms)[c] != []
  {
    forall c | c in IndexOf(ms) ensures IndexOf(ms)[c] != [] {
      MessagesForEmpty(ms, c);
    }
  }

  /** Python's list.remove(x) with the ValueError ignored: the first equal element goes. */
  function RemoveFirst(list: seq<SipMessage>, x: SipMessage): (r: seq<SipMessage>)
    ensures x in list ==> |r| == |list| - 1
    ensures x !in list ==> r == list
  {
    if list == [] then []
    else if list[0] == x then list[1..]
    else [list[0]] + RemoveFirst(list[1..], x)
  }

  // ---------------------------------------------------------------- key order

  /** The keys of `order` that are still in `keep`, in their order. */
  function Retain(order: seq<string>, keep: set<string>): (r: seq<string>)
    ensures forall c :: c in r <==> c in order && c in keep
    ensures |r| <= |order|
  {
    if order == [] then []
    else (if order[0] in keep then [order[0]] else []) + Retain(order[1..], keep)
  }

  /** The order with one key deleted, as `del` does to a dictionary. */
  function Without(order: seq<string>, c: string): (r: seq<string>)
    ensures forall d :: d in r <==> d in order && d != c
  {
    if order == [] then []
    else (if order[0] != c then [order[0]] else []) + Without(order[1..], c)
  }

  lemma {:induction false} RetainAll(order: seq<string>, keep: set<string>)
    requires KeySet(order) <= keep
    ensures Retain(order, keep) == order
  {
    if order != [] {
      assert order[0] in KeySet(order);
      assert KeySet(order[1..]) <= KeySet(order);
      RetainAll(order[1..], keep);
    }
  }

  lemma {:induction false} RetainCons(x: string, rest: seq<string>, keep: set<string>)
    ensures Retain([x] + rest, keep) == (if x in keep then [x] else []) + Retain(rest, keep)
  {
    assert ([x] + rest)[1..] == rest;
  }

  lemma {:induction false} RetainRetain(order: seq<string>, s1: set<string>, s2: set<string>)
    requires s2 <= s1
    ensures Retain(Retain(order, s1), s2) == Retain(order, s2)
  {
    if order != [] {
      RetainRetain(order[1..], s1, s2);
      var rest := Retain(order[1..], s1);
      if order[0] in s1 {
        assert Retain(order, s1) == [order[0]] + rest;
        RetainCons(order[0], rest, s2);
      } else {
        assert Retain(order, s1) == rest;
        assert order[0] !in s2;
      }
      assert Retain(order, s2) == (if order[0] in s2 then [order[0]] else []) + Retain(order[1..], s2);
    }
  }

  lemma {:induction false} WithoutIsRetain(order: seq<string>, keep: set<string>, c: string)
    requires KeySet(order) <= keep
    ensures Without(order, c) == Retain(order, keep - {c})
  {
    if order != [] {
      assert order[0] in KeySet(order);
      assert KeySet(order[1..]) <= KeySet(order);
      WithoutIsRetain(order[1..], keep, c);
    }
  }

  lemma {:induction false} DistinctRetain(order: seq<string>, keep: set<string>)
    requires Distinct(order)
    ensures Distinct(Retain(order, keep))
  {
    if order != [] {
      DistinctRetain(order[1..], keep);
      var rest := Retain(order[1..], keep);
      if order[0] in keep {
        var r := [order[0]] + rest;
        assert r[0] == order[0] && r[1..] == rest;
        assert order[0] !in rest;
        assert Retain(order, keep) == r;
      } else {
        assert Retain(order, keep) == rest;
      }
    }
  }

  lemma {:induction false} KeySetRetain(order: seq<string>, keep: set<string>)
    ensures KeySet(Retain(order, keep)) == KeySet(order) * keep
  {
    if order != [] {
      KeySetRetain(order[1..], keep);
      var rest := Retain(order[1..], keep);
      if order[0] in keep {
        assert Retain(order, keep) == [order[0]] + rest;
        assert ([order[0]] + rest)[1..] == rest;
      } else {
        assert Retain(order, keep) == rest;
      }
    }
  }

  lemma {:induction false} DistinctSnoc(order: seq<string>, c: string)
    requires Distinct(order) && c !in order
    ensures Distinct(order + [c])
  {
    if order != [] {
      assert (order + [c])[1..] == order[1..] + [c];
      DistinctSnoc(order[1..], c);
    }
  }

  // ---------------------------------------------------------------- index updates

  /** The oldest message heads its call's list, so list.remove takes exactly it. */
  lemma {:induction false} EvictHead(ms: seq<SipMessage>)
    requires ms != []
    ensures ms[0].callId in IndexOf(ms)
    ensures IndexOf(ms)[ms[0].callId] == [ms[0]] + MessagesFor(ms[1..], ms[0].callId)
    ensures RemoveFirst(IndexOf(ms)[ms[0].callId], ms[0]) == MessagesFor(ms[1..], ms[0].callId)
  {
  }

  /** Two maps with the same keys and the same value at each key are equal. */
  lemma {:induction false} MapExt(a: map<string, seq<SipMessage>>, b: map<string, seq<SipMessage>>)
    requires a.Keys == b.Keys
    requires forall k :: k in a ==> a[k] == b[k]
    ensures a == b
  {
  }

  /** Dropping the oldest message leaves the lists of the other calls as they were. */
  lemma {:induction false} MessagesForTail(ms: seq<SipMessage>, d: string)
    requires ms != [] && d != ms[0].callId
    ensures MessagesFor(ms[1..], d) == MessagesFor(ms, d)
  {
  }

  lemma {:induction false} CallIdsTail(ms: seq<SipMessage>)
    requires ms != []
    ensures CallIds(ms) == {ms[0].callId} + CallIds(ms[1..])
  {
  }

  /** When the oldest message was its call's last, deleting the call gives the index of the rest. */
  lemma {:induction false} EvictDropCall(ms: seq<SipMessage>)
    requires ms != [] && MessagesFor(ms[1..], ms[0].callId) == []
    ensures IndexOf(ms) - {ms[0].callId} == IndexOf(ms[1..])
    ensures CallIds(ms[1..]) == CallIds(ms) - {ms[0].callId}
  {
    var c := ms[0].callId;
    MessagesForEmpty(ms[1..], c);
    CallIdsTail(ms);
    var idx := IndexOf(ms) - {c};
    var rest := IndexOf(ms[1..]);
    forall d | d in idx ensures idx[d] == rest[d] {
      MessagesForTail(ms, d);
    }
    MapExt(idx, rest);
  }

  /** Otherwise the call keeps the rest of its list. */
  lemma {:induction false} EvictKeepCall(ms: seq<SipMessage>)
    requires ms != [] && MessagesFor(ms[1..], ms[0].callId) != []
    ensures IndexOf(ms)[ms[0].callId := MessagesFor(ms[1..], ms[0].callId)] == IndexOf(ms[1..])
    ensures CallIds(ms[1..]) == CallIds(ms)
  {
    var c := ms[0].callId;
    MessagesForEmpty(ms[1..], c);
    CallIdsTail(ms);
    var idx := IndexOf(ms)[c := MessagesFor(ms[1..], c)];
    var rest := IndexOf(ms[1..]);
    forall d | d in idx ensures idx[d] == rest[d] {
      if d != c {
        MessagesForTail(ms, d);
      }
    }
    MapExt(idx, rest);
  }

  /** Deleting a call that has no messages left is the same as keeping the calls still present. */
  lemma {:induction false} EvictOrder(order: seq<string>, ms: seq<SipMessage>)
    requires ms != [] && Distinct(order) && KeySet(order) == CallIds(ms)
    ensures var c := ms[0].callId;
      && (c in CallIds(ms[1..]) ==> Retain(order, CallIds(ms[1..])) == order)
      && (c !in CallIds(ms[1..]) ==>
            && Without(order, c) == Retain(order, CallIds(ms[1..]))
            && Distinct(Without(order, c))
            && KeySet(Without(order, c)) == CallIds(ms[1..]))
  {
    var c := ms[0].callId;
    assert CallIds(ms) == {c} + CallIds(ms[1..]);
    if c in CallIds(ms[1..]) {
      RetainAll(order, CallIds(ms[1..]));
    } else {
      WithoutIsRetain(order, CallIds(ms), c);
      assert CallIds(ms) - {c} == CallIds(ms[1..]);
      DistinctRetain(order, CallIds(ms[1..]));
      KeySetRetain(order, CallIds(ms[1..]));
    }
  }

  /** A message of a new call starts that call's list. */
  lemma {:induction false} StoreNewCall(ms: seq<SipMessage>, m: SipMessage)
    requires m.callId !in CallIds(ms)
    ensures IndexOf(ms)[m.callId := [m]] == IndexOf(ms + [m])
    ensures CallIds(ms + [m]) == CallIds(ms) + {m.callId}
  {
    CallIdsSnoc(ms, m);
    MessagesForEmpty(ms, m.callId);
    var idx := IndexOf(ms)[m.callId := [m]];
    assert idx.Keys == CallIds(ms + [m]);
    forall c | c in idx ensures idx[c] == IndexOf(ms + [m])[c] {
      MessagesForSnoc(ms, m, c);
    }
  }

  /** A message of a known call is appended to that call's list. */
  lemma {:induction false} StoreKnownCall(ms: seq<SipMessage>, m: SipMessage)
    requires m.callId in CallIds(ms)
    ensures IndexOf(ms)[m.callId := IndexOf(ms)[m.callId] + [m]] == IndexOf(ms + [m])
    ensures CallIds(ms + [m]) == CallIds(ms)
  {
    CallIdsSnoc(ms, m);
    var idx := IndexOf(ms)[m.callId := IndexOf(ms)[m.callId] + [m]];
    assert idx.Keys == CallIds(ms + [m]);
    forall c | c in idx ensures idx[c] == IndexOf(ms + [m])[c] {
      MessagesForSnoc(ms, m, c);
    }
  }

  /** Indexing a message of a new call keeps the representation invariant. */
  lemma {:induction false} NewCallConsistent(ms: seq<SipMessage>, m: SipMessage, idx: map<string, seq<SipMessage>>, order: seq<string>)
    requires Consistent(ms, idx, order) && m.callId !in idx && m.callId !in order
    ensures Consistent(ms + [m], idx[m.callId := [m]], order + [m.callId])
  {
    StoreNewCall(ms, m);
    DistinctSnoc(order, m.callId);
    KeySetSnoc(order, m.callId);
  }

  /** Indexing a message of a known call keeps the representation invariant. */
  lemma {:induction false} KnownCallConsistent(ms: seq<SipMessage>, m: SipMessage, idx: map<string, seq<SipMessage>>, order: seq<string>)
    requires Consistent(ms, idx, order) && m.callId in idx
    ensures Consistent(ms + [m], idx[m.callId := idx[m.callId] + [m]], order)
  {
    StoreKnownCall(ms, m);
  }

  // ---------------------------------------------------------------- abstract state

  /** The stored messages and the key order of the index (the index follows from the messages). */
  datatype Capture = Capture(messages: seq<SipMessage>, order: seq<string>)

  /** The newest n messages: what the hard cap leaves. */
  function KeepNewest(ms: seq<SipMessage>, n: nat): (r: seq<SipMessage>)
    ensures |r| <= n && |r| <= |ms|
    ensures r == ms[|ms| - |r|..]
    ensures |ms| <= n ==> r == ms
  {
    if |ms| > n then ms[|ms| - n..] else ms
  }

  /** Popping from the front until at most n remain leaves the newest n. */
  lemma {:induction false} KeepNewestAt(ms: seq<SipMessage>, k: nat, n: nat)
    requires k <= |ms| && |ms| - k <= n
    requires k > 0 ==> |ms| - k >= n
    ensures KeepNewest(ms, n) == ms[k..]
  {
  }

  /** The messages after leading ones older than the cutoff are dropped. */
  function DropExpired(ms: seq<SipMessage>, cutoff: int): (r: seq<SipMessage>)
    ensures |r| <= |ms|
    ensures r != [] ==> r[0].timestamp >= cutoff
  {
    if ms != [] && ms[0].timestamp < cutoff then DropExpired(ms[1..], cutoff) else ms
  }

  /** Storing a message: append it, add its call to the key order if new, apply the cap. */
  function Stored(c: Capture, m: SipMessage): (r: Capture)
    ensures |r.messages| <= MaxMessages
    ensures r.messages != [] && r.messages[|r.messages| - 1] == m
  {
    var ms := KeepNewest(c.messages + [m], MaxMessages);
    Capture(ms, Retain(c.order + (if m.callId in c.order then [] else [m.callId]), CallIds(ms)))
  }

  /** The effect of one entry dump: the message it yields is stored, or nothing happens. */
  function Parsed(c: Capture, resp: Response, now: int): Capture {
    match ParseDetail(CommandOutput(resp), now)
    case None => c
    case Some(m) => Stored(c, m)
  }

  /** The effect of fetching a batch of entries in order; a failed request is skipped. */
  function FetchAll(c: Capture, batch: seq<nat>, details: map<nat, Response>, now: int): Capture {
    if batch == [] then c
    else FetchStep(FetchAll(c, batch[..|batch| - 1], details, now), batch[|batch| - 1], details, now)
  }

  /** The effect of fetching one entry; a failed request changes nothing. */
  function FetchStep(c: Capture, e: nat, details: map<nat, Response>, now: int): Capture {
    if e in details then Parsed(c, details[e], now) else c
  }

  /** Fetching one more entry of the batch. */
  lemma {:induction false} FetchAllSnoc(c: Capture, batch: seq<nat>, i: nat, details: map<nat, Response>, now: int)
    requires i < |batch|
    ensures FetchAll(c, batch[..i + 1], details, now) == FetchStep(FetchAll(c, batch[..i], details, now), batch[i], details, now)
  {
    assert batch[..i + 1][..i] == batch[..i];
    assert batch[..i + 1][i] == batch[i];
  }

  /** Expiry: leading messages older than two hours are dropped, with calls left without messages. */
  function Cleaned(c: Capture, now: int): (r: Capture)
    ensures r.messages != [] ==> r.messages[0].timestamp >= now - MaxAgeSeconds
  {
    var ms := DropExpired(c.messages, now - MaxAgeSeconds);
    Capture(ms, Retain(c.order, CallIds(ms)))
  }

  /** The first 50 new entries. */
  function FirstBatch(entries: seq<nat>): (b: seq<nat>)
    ensures |b| <= BatchSize && |b| <= |entries| && b == entries[..|b|]
    ensures entries != [] ==> b != []
  {
    if |entries| > BatchSize then entries[..BatchSize] else entries
  }

  /** Dropping stops at the first message that is not expired. */
  lemma {:induction false} DropExpiredAt(ms: seq<SipMessage>, k: nat, cutoff: int)
    requires k <= |ms|
    requires forall i :: 0 <= i < k ==> ms[i].timestamp < cutoff
    requires k == |ms| || ms[k].timestamp >= cutoff
    ensures DropExpired(ms, cutoff) == ms[k..]
  {
    if k > 0 {
      assert ms[0].timestamp < cutoff;
      DropExpiredAt(ms[1..], k - 1, cutoff);
      assert ms[1..][k - 1..] == ms[k..];
    }
  }

  // ---------------------------------------------------------------- call summaries

  datatype CallSummary = CallSummary(
    callId: string, firstSeen: int, fromHeader: string, toHeader: string, sipMethod: string, messageCount: nat)

  /** The first non-empty method among a call's messages (its request), "" if all are responses. */
  function PrimaryMethod(msgs: seq<SipMessage>): (r: string)
    ensures r != "" ==> exists i :: 0 <= i < |msgs| && msgs[i].sipMethod == r
    ensures r == "" <==> forall i :: 0 <= i < |msgs| ==> msgs[i].sipMethod == ""
  {
    if msgs == [] then ""
    else if msgs[0].sipMethod != "" then msgs[0].sipMethod
    else
      var r := PrimaryMethod(msgs[1..]);
      assert forall i :: 1 <= i < |msgs| ==> msgs[i] == msgs[1..][i - 1];
      r
  }

  /** The loop that picks the primary method, stopping at the first message that has one. */
  method FindPrimaryMethod(msgs: seq<SipMessage>) returns (primary: string)
    ensures primary == PrimaryMethod(msgs)
  {
    primary := "";
    var i := 0;
    while i < |msgs|
      invariant 0 <= i <= |msgs|
      invariant PrimaryMethod(msgs) == PrimaryMethod(msgs[i..])
    {
      PrimaryMethodFrom(msgs, i);
      if msgs[i].sipMethod != "" {
        primary := msgs[i].sipMethod;
        return;
      }
      i := i + 1;
    }
  }

  /** One step of the search: the message at i decides, or the search moves on. */
  lemma {:induction false} PrimaryMethodFrom(msgs: seq<SipMessage>, i: nat)
    requires i < |msgs|
    ensures PrimaryMethod(msgs[i..])
         == if msgs[i].sipMethod != "" then msgs[i].sipMethod else PrimaryMethod(msgs[i + 1..])
  {
    assert msgs[i..][0] == msgs[i];
    assert msgs[i..][1..] == msgs[i + 1..];
  }

  function Summarize(c: string, msgs: seq<SipMessage>): (s: CallSummary)
    requires msgs != []
    ensures s.callId == c && s.messageCount == |msgs| && s.firstSeen == msgs[0].timestamp
  {
    CallSummary(c, msgs[0].timestamp, msgs[0].fromHeader, msgs[0].toHeader, PrimaryMethod(msgs), |msgs|)
  }

  /** One summary per listed call that has messages, in the listed order. */
  function Summaries(order: seq<string>, idx: map<string, seq<SipMessage>>): (r: seq<CallSummary>)
    ensures |r| <= |order|
  {
    if order == [] then []
    else
      var rest := Summaries(order[..|order| - 1], idx);
      var c := order[|order| - 1];
      if c !in idx || idx[c] == [] then rest else rest + [Summarize(c, idx[c])]
  }

  /** The summary loop of get_calls over the index's items, skipping empty lists. */
  method SummarizeCalls(order: seq<string>, idx: map<string, seq<SipMessage>>) returns (found: seq<CallSummary>)
    requires forall c :: c in order ==> c in idx
    ensures found == Summaries(order, idx)
  {
    found := [];
    var i := 0;
    while i < |order|
      invariant 0 <= i <= |order|
      invariant found == Summaries(order[..i], idx)
    {
      var c := order[i];
      var msgs := idx[c];
      assert order[..i + 1][..i] == order[..i];
      if msgs != [] {
        var primary := FindPrimaryMethod(msgs);
        found := found + [CallSummary(c, msgs[0].timestamp, msgs[0].fromHeader, msgs[0].toHeader, primary, |msgs|)];
      }
      i := i + 1;
    }
    assert order[..i] == order;
  }

  function FirstSeen(s: CallSummary): int { s.firstSeen }

  /** When every call has messages, each call in the order gets exactly one summary, in that order. */
  lemma {:induction false} SummariesComplete(order: seq<string>, idx: map<string, seq<SipMessage>>)
    requires forall c :: c in order ==> c in idx && idx[c] != []
    ensures |Summaries(order, idx)| == |order|
    ensures forall i :: 0 <= i < |order| ==> Summaries(order, idx)[i] == Summarize(order[i], idx[order[i]])
  {
    if order != [] {
      var n := |order| - 1;
      var init := order[..n];
      forall c | c in init ensures c in idx && idx[c] != [] {
        var k :| 0 <= k < |init| && init[k] == c;
        assert order[k] == c;
      }
      SummariesComplete(init, idx);
      var last := order[n];
      assert last in order;
      var all := Summaries(order, idx);
      assert all == Summaries(init, idx) + [Summarize(last, idx[last])];
      forall i | 0 <= i < n ensures all[i] == Summarize(order[i], idx[order[i]]) {
        assert init[i] == order[i];
      }
    }
  }

  // ---------------------------------------------------------------- the buffer

  class SipDebugBuffer {
    var enabled: bool
    var messages: seq<SipMessage>
    var byCallId: map<string, seq<SipMessage>>
    var callOrder: seq<string>
    var lastEntryNum: int

    ghost predicate Valid()
      reads this
    {
      |messages| <= MaxMessages && Consistent(messages, byCallId, callOrder)
    }

    function State(): Capture
      reads this
    {
      Capture(messages, callOrder)
    }

    constructor ()
      ensures Valid() && !enabled && State() == Capture([], []) && lastEntryNum == -1
    {
      enabled := false;
      messages := [];
      byCallId := map[];
      callOrder := [];
      lastEntryNum := -1;
    }

    /** Turns capture on; refused when the AMI connection is down. */
    method Enable(connected: bool) returns (ok: bool)
      requires Valid()
      modifies this
      ensures Valid() && ok == connected && State() == old(State())
      ensures ok ==> enabled && lastEntryNum == -1
      ensures !ok ==> enabled == old(enabled) && lastEntryNum == old(lastEntryNum)
    {
      if !connected {
        return false;
      }
      lastEntryNum := -1;
      enabled := true;
      return true;
    }

    method Disable()
      requires Valid()
      modifies this
      ensures Valid() && !enabled && State() == old(State()) && lastEntryNum == old(lastEntryNum)
    {
      enabled := false;
    }

    /**
     * `del` on the index: the oldest message (`ms[0]`, already popped) was
     * the last of its call, so the call goes from the index and its key order.
     */
    method DropCall(c: string, ghost ms: seq<SipMessage>)
      requires ms != [] && c == ms[0].callId && messages == ms[1..]
      requires Consistent(ms, byCallId, callOrder) && MessagesFor(ms[1..], c) == []
      modifies this
      ensures Consistent(messages, byCallId, callOrder)
      ensures callOrder == Retain(old(callOrder), CallIds(messages))
      ensures messages == old(messages) && enabled == old(enabled) && lastEntryNum == old(lastEntryNum)
    {
      EvictDropCall(ms);
      EvictOrder(callOrder, ms);
      byCallId := byCallId - {c};
      callOrder := Without(callOrder, c);
    }

    /** The call of the popped oldest message keeps the rest of its list. */
    method ShrinkCall(c: string, list: seq<SipMessage>, ghost ms: seq<SipMessage>)
      requires ms != [] && c == ms[0].callId && messages == ms[1..]
      requires Consistent(ms, byCallId, callOrder) && list == MessagesFor(ms[1..], c) && list != []
      modifies this
      ensures Consistent(messages, byCallId, callOrder)
      ensures callOrder == Retain(old(callOrder), CallIds(messages))
      ensures messages == old(messages) && enabled == old(enabled) && lastEntryNum == old(lastEntryNum)
    {
      EvictKeepCall(ms);
      EvictOrder(callOrder, ms);
      byCallId := byCallId[c := list];
    }

    /**
     * Pops the oldest message and takes it out of its call's list, deleting
     * the call when that empties. The key order stays the calls of `order0`
     * that still have messages.
     */
    method EvictOldest(ghost order0: seq<string>)
      requires Consistent(messages, byCallId, callOrder) && messages != []
      requires callOrder == Retain(order0, CallIds(messages))
      modifies this
      ensures Consistent(messages, byCallId, callOrder)
      ensures messages == old(messages)[1..]
      ensures callOrder == Retain(order0, CallIds(messages))
      ensures enabled == old(enabled) && lastEntryNum == old(lastEntryNum)
    {
      ghost var ms := messages;
      var oldest := messages[0];
      var c := oldest.callId;
      EvictHead(messages);
      CallIdsSuffix(messages, 1);
      RetainRetain(order0, CallIds(messages), CallIds(messages[1..]));
      messages := messages[1..];
      if c in byCallId {
        var list := byCallId[c];
        if list != [] {
          list := RemoveFirst(list, oldest);
          if list == [] {
            DropCall(c, ms);
          } else {
            ShrinkCall(c, list, ms);
          }
        }
      }
    }

    /** Appends a message, indexes it and applies the hard cap. */
    method Store(m: SipMessage)
      requires Valid()
      modifies this
      ensures Valid() && State() == Stored(old(State()), m)
      ensures enabled == old(enabled) && lastEntryNum == old(lastEntryNum)
    {
      ghost var order0 := callOrder + (if m.callId in callOrder then [] else [m.callId]);
      Append(m);
      RetainAll(callOrder, CallIds(messages));
      EnforceCap(order0);
    }

    /** Pops oldest messages while the queue is over the cap. */
    method EnforceCap(ghost order0: seq<string>)
      requires Consistent(messages, byCallId, callOrder)
      requires callOrder == Retain(order0, CallIds(messages))
      modifies this
      ensures Consistent(messages, byCallId, callOrder)
      ensures messages == KeepNewest(old(messages), MaxMessages)
      ensures callOrder == Retain(order0, CallIds(messages))
      ensures enabled == old(enabled) && lastEntryNum == old(lastEntryNum)
    {
      ghost var ms0 := messages;
      ghost var k := 0;
      while |messages| > MaxMessages
        invariant Consistent(messages, byCallId, callOrder)
        invariant k <= |ms0| && messages == ms0[k..]
        invariant k > 0 ==> |messages| >= MaxMessages
        invariant callOrder == Retain(order0, CallIds(messages))
        invariant enabled == old(enabled) && lastEntryNum == old(lastEntryNum)
        decreases |messages|
      {
        EvictOldest(order0);
        assert ms0[k..][1..] == ms0[k + 1..];
        k := k + 1;
      }
      KeepNewestAt(ms0, k, MaxMessages);
    }

    /** Appends a message to the queue and to its call's list, indexing the call first if it is new. */
    method Append(m: SipMessage)
      requires Consistent(messages, byCallId, callOrder)
      modifies this
      ensures Consistent(messages, byCallId, callOrder)
      ensures messages == old(messages) + [m]
      ensures callOrder == old(callOrder) + (if m.callId in old(callOrder) then [] else [m.callId])
      ensures enabled == old(enabled) && lastEntryNum == old(lastEntryNum)
    {
      ghost var ms := messages;
      KeySetMembers(callOrder);
      messages := messages + [m];
      if m.callId !in byCallId {
        AddCall(m, ms);
      } else {
        ExtendCall(m, ms);
      }
    }

    /** The message's call is new: its list starts with the message and the call goes last in key order. */
    method AddCall(m: SipMessage, ghost ms: seq<SipMessage>)
      requires messages == ms + [m] && Consistent(ms, byCallId, callOrder)
      requires m.callId !in byCallId && m.callId !in callOrder
      modifies this
      ensures Consistent(messages, byCallId, callOrder)
      ensures callOrder == old(callOrder) + [m.callId]
      ensures messages == old(messages) && enabled == old(enabled) && lastEntryNum == old(lastEntryNum)
    {
      NewCallConsistent(ms, m, byCallId, callOrder);
      byCallId := byCallId[m.callId := [m]];
      callOrder := callOrder + [m.callId];
    }

    /** The message's call is known: the message goes at the end of its list. */
    method ExtendCall(m: SipMessage, ghost ms: seq<SipMessage>)
      requires messages == ms + [m] && Consistent(ms, byCallId, callOrder)
      requires m.callId in byCallId
      modifies this
      ensures Consistent(messages, byCallId, callOrder)
      ensures callOrder == old(callOrder)
      ensures messages == old(messages) && enabled == old(enabled) && lastEntryNum == old(lastEntryNum)
    {
      KnownCallConsistent(ms, m, byCallId, callOrder);
      byCallId := byCallId[m.callId := byCallId[m.callId] + [m]];
    }

    /** Drops the expired messages from the front of the queue. */
    method CleanupOld(now: int)
      requires Valid()
      modifies this
      ensures Valid() && State() == Cleaned(old(State()), now)
      ensures enabled == old(enabled) && lastEntryNum == old(lastEntryNum)
    {
      var cutoff := now - MaxAgeSeconds;
      ghost var ms0 := messages;
      ghost var order0 := callOrder;
      ghost var k := 0;
      RetainAll(callOrder, CallIds(messages));
      while messages != [] && messages[0].timestamp < cutoff
        invariant Valid()
        invariant k <= |ms0| && messages == ms0[k..]
        invariant forall i :: 0 <= i < k ==> ms0[i].timestamp < cutoff
        invariant callOrder == Retain(order0, CallIds(messages))
        invariant enabled == old(enabled) && lastEntryNum == old(lastEntryNum)
        decreases |messages|
      {
        EvictOldest(order0);
        assert ms0[k..][1..] == ms0[k + 1..];
        k := k + 1;
      }
      DropExpiredAt(ms0, k, cutoff);
    }

    /** Fetches one history entry's dump and stores the message it holds, if any. */
    method FetchEntryDetail(resp: Response, now: int)
      requires Valid()
      modifies this
      ensures Valid() && State() == Parsed(old(State()), resp, now)
      ensures enabled == old(enabled) && lastEntryNum == old(lastEntryNum)
    {
      var output := ExtractCommandOutput(resp);
      if output == "" {
        return;
      }
      var msg := ParseEntry(output, now);
      if msg.Some? {
        Store(msg.value);
      }
    }

    /**
     * One poll: list the history, fetch the first 50 entries newer than the
     * last one polled, remember the largest of them, then expire old messages.
     * Nothing happens when AMI is down, the listing is empty or nothing is new.
     */
    method FetchNewEntries(connected: bool, listing: Response, details: map<nat, Response>, now: int)
      requires Valid()
      modifies this
      ensures Valid() && enabled == old(enabled)
      ensures var entries := NewEntries(Split(CommandOutput(listing), '\n'), old(lastEntryNum));
        if !connected || CommandOutput(listing) == "" || entries == [] then
          State() == old(State()) && lastEntryNum == old(lastEntryNum)
        else
          && lastEntryNum == MaxOf(FirstBatch(entries))
          && State() == Cleaned(FetchAll(old(State()), FirstBatch(entries), details, now), now)
    {
      if !connected {
        return;
      }
      var output := ExtractCommandOutput(listing);
      if output == "" {
        return;
      }
      var entries := ScanHistory(Split(output, '\n'), lastEntryNum);
      if entries == [] {
        return;
      }
      Poll(entries, details, now);
    }

    /** The part of a poll that runs once new entries are known. */
    method Poll(entries: seq<nat>, details: map<nat, Response>, now: int)
      requires Valid() && entries != []
      modifies this
      ensures Valid() && enabled == old(enabled)
      ensures lastEntryNum == MaxOf(FirstBatch(entries))
      ensures State() == Cleaned(FetchAll(old(State()), FirstBatch(entries), details, now), now)
    {
      var batch := if |entries| > BatchSize then entries[..BatchSize] else entries;
      FetchBatch(batch, details, now);
      lastEntryNum := MaxOf(batch);
      CleanupOld(now);
    }

    /** Fetches one entry of a batch, unless its request failed. */
    method FetchEntry(e: nat, details: map<nat, Response>, now: int)
      requires Valid()
      modifies this
      ensures Valid() && State() == FetchStep(old(State()), e, details, now)
      ensures enabled == old(enabled) && lastEntryNum == old(lastEntryNum)
    {
      if e in details {
        FetchEntryDetail(details[e], now);
      }
    }

    /** Fetches the entries of a batch in order; an entry whose request failed is skipped. */
    method FetchBatch(batch: seq<nat>, details: map<nat, Response>, now: int)
      requires Valid()
      modifies this
      ensures Valid() && State() == FetchAll(old(State()), batch, details, now)
      ensures enabled == old(enabled) && lastEntryNum == old(lastEntryNum)
    {
      ghost var start := State();
      var i := 0;
      while i < |batch|
        invariant 0 <= i <= |batch|
        invariant Valid() && enabled == old(enabled) && lastEntryNum == old(lastEntryNum)
        invariant State() == FetchAll(start, batch[..i], details, now)
      {
        FetchAllSnoc(start, batch, i, details, now);
        FetchEntry(batch[i], details, now);
        i := i + 1;
      }
      assert batch[..i] == batch;
    }

    /** The calls seen, newest first by first message; calls with equal times keep the index's key order. */
    method GetCalls(now: int) returns (calls: seq<CallSummary>)
      requires Valid()
      modifies this
      ensures Valid() && State() == Cleaned(old(State()), now)
      ensures enabled == old(enabled) && lastEntryNum == old(lastEntryNum)
      ensures calls == Ordering.SortDesc(Summaries(callOrder, byCallId), FirstSeen)
    {
      CleanupOld(now);
      KeySetMembers(callOrder);
      var found := SummarizeCalls(callOrder, byCallId);
      calls := Ordering.SortDesc(found, FirstSeen);
    }

    /** All messages of one call after expiry, oldest first; none for an unknown call. */
    method GetCallMessages(callId: string, now: int) returns (msgs: seq<SipMessage>)
      requires Valid()
      modifies this
      ensures Valid() && State() == Cleaned(old(State()), now)
      ensures enabled == old(enabled) && lastEntryNum == old(lastEntryNum)
      ensures msgs == MessagesFor(messages, callId)
    {
      CleanupOld(now);
      MessagesForEmpty(messages, callId);
      msgs := if callId in byCallId then byCallId[callId] else [];
    }

    /** Forgets every message and restarts entry numbering. */
    method Clear()
      requires Valid()
      modifies this
      ensures Valid() && State() == Capture([], []) && lastEntryNum == -1 && enabled == old(enabled)
    {
      messages := [];
      byCallId := map[];
      callOrder := [];
      lastEntryNum := -1;
    }
  }

  // ---------------------------------------------------------------- properties

  /** A poll that fetched anything moves the last entry number strictly forward. */
  lemma {:induction false} PollAdvances(entries: seq<nat>, last: int)
    requires entries != []
    requires forall i :: 0 <= i < |entries| ==> entries[i] > last
    ensures MaxOf(FirstBatch(entries)) > last
  {
    var b := FirstBatch(entries);
    assert b[0] == entries[0];
  }

  /** When the listing is in ascending order, the entries left for the next poll are all newer than the batch. */
  lemma {:induction false} DeferredEntriesNotLost(entries: seq<nat>)
    requires entries != []
    requires forall i, j :: 0 <= i < j < |entries| ==> entries[i] < entries[j]
    ensures forall j :: |FirstBatch(entries)| <= j < |entries| ==> entries[j] > MaxOf(FirstBatch(entries))
  {
    var b := FirstBatch(entries);
    var m := MaxOf(b);
    forall j | |b| <= j < |entries| ensures entries[j] > m {
      var k :| 0 <= k < |b| && b[k] == m;
      assert entries[k] == m;
    }
  }

  /** Storing keeps the newest message, never exceeds the cap, and drops at most the oldest one. */
  lemma {:induction false} StoredKeepsAllButOldest(c: Capture, m: SipMessage)
    requires |c.messages| <= MaxMessages
    ensures Stored(c, m).messages == c.messages + [m]
         || Stored(c, m).messages == (c.messages + [m])[1..]
    ensures |c.messages| < MaxMessages ==> Stored(c, m).messages == c.messages + [m]
  {
  }

  /** Expiry removes a prefix of the queue, and only messages older than the cutoff. */
  lemma {:induction false} DropExpiredPrefix(ms: seq<SipMessage>, cutoff: int)
    ensures var r := DropExpired(ms, cutoff);
      && r == ms[|ms| - |r|..]
      && forall i :: 0 <= i < |ms| - |r| ==> ms[i].timestamp < cutoff
  {
    if ms != [] && ms[0].timestamp < cutoff {
      DropExpiredPrefix(ms[1..], cutoff);
      var r := DropExpired(ms[1..], cutoff);
      assert ms[1..][|ms[1..]| - |r|..] == ms[|ms| - |r|..];
      forall i | 0 <= i < |ms| - |r| ensures ms[i].timestamp < cutoff {
        if i > 0 {
          assert ms[i] == ms[1..][i - 1];
        }
      }
    }
  }

  /** After expiry the queue is what remains of it once the messages older than two hours are gone. */
  lemma {:induction false} CleanedIsSuffix(c: Capture, now: int)
    ensures var r := Cleaned(c, now).messages; r == c.messages[|c.messages| - |r|..]
    ensures forall i :: 0 <= i < |c.messages| - |Cleaned(c, now).messages| ==>
      c.messages[i].timestamp < now - MaxAgeSeconds
  {
    DropExpiredPrefix(c.messages, now - MaxAgeSeconds);
  }

  /** The calls list is ordered newest first, holds one summary per call, and ties keep key order. */
  lemma {:induction false} CallsOrdered(order: seq<string>, ms: seq<SipMessage>, idx: map<string, seq<SipMessage>>, t: int)
    requires Consistent(ms, idx, order)
    ensures var calls := Ordering.SortDesc(Summaries(order, idx), FirstSeen);
      && Ordering.SortedDesc(calls, FirstSeen)
      && multiset(calls) == multiset(Summaries(order, idx))
      && |calls| == |order|
      && Ordering.WithKey(calls, FirstSeen, t) == Ordering.WithKey(Summaries(order, idx), FirstSeen, t)
  {
    IndexOfNonEmpty(ms);
    KeySetMembers(order);
    assert forall c :: c in order ==> c in idx && idx[c] != [];
    SummariesComplete(order, idx);
    Ordering.SortDescSortedPermutation(Summaries(order, idx), FirstSeen);
    Ordering.SortDescStable(Summaries(order, idx), FirstSeen, t);
  }
}
