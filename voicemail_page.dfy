/**
 * The voicemail page of the web front end: the list query for the chosen
 * mailbox and unread toggle, the handling of the list and statistics
 * replies, selecting a message (which marks an unread one as read), deleting
 * one, the relative "vor N ..." dates, and the mailbox buttons built from the
 * keys of the statistics' per-mailbox object.
 */
module VoicemailPage {
  import opened Wrappers
  import opened Text
  import opened Sql
  import Ordering
  import Duration
  import Voicemail

  type Message = Voicemail.VoicemailView

  const AllMailboxes := "all"

  /** What the list shows: a mailbox name or "all", and whether only unread messages are wanted. */
  datatype Scope = Scope(mailbox: string, unreadOnly: bool)

  /** The `params` object of the list request: `mailbox` and `unread_only` when they are set. */
  datatype ListParams = ListParams(mailbox: Option<string>, unreadOnly: Option<bool>)

  /** The parameters `fetchVoicemails` sends for the scope its closure sees. */
  function ParamsFor(s: Scope): (p: ListParams)
    ensures p.mailbox.Some? <==> s.mailbox != AllMailboxes
    ensures p.mailbox.Some? ==> p.mailbox.value == s.mailbox
    ensures p.unreadOnly.Some? <==> s.unreadOnly
    ensures p.unreadOnly.Some? ==> p.unreadOnly.value
  {
    ListParams(if s.mailbox != AllMailboxes then Some(s.mailbox) else None,
               if s.unreadOnly then Some(true) else None)
  }

  /** The parameters are filled in one condition at a time. */
  method BuildParams(s: Scope) returns (p: ListParams)
    ensures p == ParamsFor(s)
  {
    p := ListParams(None, None);
    if s.mailbox != AllMailboxes {
      p := p.(mailbox := Some(s.mailbox));
    }
    if s.unreadOnly {
      p := p.(unreadOnly := Some(true));
    }
  }

  /** A stored message is listed for the page's request iff it is in the chosen mailbox and, with the toggle on, unread. */
  lemma {:induction false} ParamsSelect(s: Scope, r: Voicemail.VoicemailRecord)
    ensures var p := ParamsFor(s);
      Voicemail.Listed(r, p.mailbox, p.unreadOnly) <==>
        && (s.mailbox != AllMailboxes && s.mailbox != "" ==> r.mailbox == s.mailbox)
        && (s.unreadOnly ==> !r.isRead)
  {
  }

  /** The initial scope asks for every stored message, newest first. */
  lemma {:induction false} InitialScopeListsAll(records: seq<Voicemail.VoicemailRecord>)
    ensures var p := ParamsFor(Scope(AllMailboxes, false));
      Voicemail.ListOf(records, p.mailbox, p.unreadOnly) == Voicemail.Views(Ordering.SortDesc(records, Voicemail.DateKey))
  {
    var p := ParamsFor(Scope(AllMailboxes, false));
    SelectAll(records, r => Voicemail.Listed(r, p.mailbox, p.unreadOnly));
  }

  // ---------------------------------------------------------------- deleting from the list

  predicate KeepOther(id: int, m: Message) { m.id != id }

  /** `voicemails.filter(vm => vm.id !== id)`. */
  function WithoutId(list: seq<Message>, id: int): (r: seq<Message>)
    ensures forall i :: 0 <= i < |r| ==> r[i].id != id
  {
    Select(list, m => KeepOther(id, m))
  }

  /** The filter removes every message with that id and keeps every other one as often as it occurred. */
  lemma {:induction false} WithoutIdExact(list: seq<Message>, id: int, m: Message)
    ensures m.id != id ==> multiset(WithoutId(list, id))[m] == multiset(list)[m]
    ensures m.id == id ==> m !in WithoutId(list, id)
  {
    SelectCounts(list, x => KeepOther(id, x), m);
  }

  /** A list without that id is left as it is, and filtering twice is filtering once. */
  lemma {:induction false} WithoutIdIdempotent(list: seq<Message>, id: int)
    ensures (forall i :: 0 <= i < |list| ==> list[i].id != id) ==> WithoutId(list, id) == list
    ensures WithoutId(WithoutId(list, id), id) == WithoutId(list, id)
  {
    if forall i :: 0 <= i < |list| ==> list[i].id != id {
      SelectAll(list, m => KeepOther(id, m));
    }
    SelectAll(WithoutId(list, id), m => KeepOther(id, m));
  }

  // ---------------------------------------------------------------- formatting

  /** `formatDuration`: floor minutes, a colon, the remainder padded to two digits. */
  function FormatDuration(seconds: int): (r: string)
    ensures seconds >= 0 ==> Duration.ParseMinSec(r) == Some(seconds)
  {
    if seconds < 0 then Duration.MinSec(seconds)
    else
      Duration.MinSecRoundTrip(seconds);
      Duration.MinSec(seconds)
  }

  const MinuteMs := 60000
  const HourMs := 3600000
  const DayMs := 86400000
  const WeekMs := 604800000

  /** The age bucket `formatDate` puts a message in; `Absolute` is the locale date. */
  datatype Age = Minutes(n: int) | Hours(n: int) | Days(n: int) | Absolute

  /** The bucket for `diffMs` milliseconds between the message and now (negative for a date in the future). */
  function Bucket(diffMs: int): (a: Age)
    ensures a.Minutes? <==> diffMs < HourMs
    ensures a.Hours? <==> HourMs <= diffMs < DayMs
    ensures a.Days? <==> DayMs <= diffMs < WeekMs
    ensures a.Absolute? <==> WeekMs <= diffMs
    ensures a.Minutes? ==> a.n * MinuteMs <= diffMs < (a.n + 1) * MinuteMs && a.n < 60
    ensures a.Hours? ==> a.n * HourMs <= diffMs < (a.n + 1) * HourMs && 1 <= a.n <= 23
    ensures a.Days? ==> a.n * DayMs <= diffMs < (a.n + 1) * DayMs && 1 <= a.n <= 6
  {
    var mins := diffMs / MinuteMs;
    var hours := diffMs / HourMs;
    var days := diffMs / DayMs;
    Floor(diffMs, MinuteMs);
    Floor(diffMs, HourMs);
    Floor(diffMs, DayMs);
    if mins < 60 then Minutes(mins)
    else if hours < 24 then Hours(hours)
    else if days < 7 then Days(days)
    else Absolute
  }

  /** Dafny's `/` by a positive divisor is JavaScript's `Math.floor(x / d)`. */
  lemma {:induction false} Floor(x: int, d: int)
    requires d > 0
    ensures (x / d) * d <= x < (x / d + 1) * d
  {
  }

  function Rank(a: Age): nat {
    match a
    case Minutes(_) => 0
    case Hours(_) => 1
    case Days(_) => 2
    case Absolute => 3
  }

  /** An older message never lands in a finer bucket, nor a smaller count within the same one. */
  lemma {:induction false} BucketMonotone(d1: int, d2: int)
    requires d1 <= d2
    ensures Rank(Bucket(d1)) <= Rank(Bucket(d2))
    ensures Rank(Bucket(d1)) == Rank(Bucket(d2)) && !Bucket(d1).Absolute? ==> Bucket(d1).n <= Bucket(d2).n
  {
  }

  /** `formatDate`'s text for the relative buckets; None stands for the locale date that is not modelled. */
  function AgeText(a: Age): (r: Option<string>)
    ensures r.None? <==> a.Absolute?
    ensures a.Minutes? ==> r.value == "vor " + IntToString(a.n) + " Min."
    ensures a.Hours? ==> r.value == "vor " + IntToString(a.n) + " Std."
    ensures a.Days? && a.n > 1 ==> r.value == "vor " + IntToString(a.n) + " Tagen"
    ensures a.Days? && a.n <= 1 ==> r.value == "vor " + IntToString(a.n) + " Tag"
  {
    match a
    case Minutes(n) => Some("vor " + IntToString(n) + " Min.")
    case Hours(n) => Some("vor " + IntToString(n) + " Std.")
    case Days(n) => Some("vor " + IntToString(n) + " Tag" + (if n > 1 then "en" else ""))
    case Absolute => None
  }

  function FormatDate(diffMs: int): Option<string> {
    AgeText(Bucket(diffMs))
  }

  /** The singular only ever appears for exactly one day. */
  lemma {:induction false} OneDayIsSingular(diffMs: int)
    requires DayMs <= diffMs < WeekMs
    ensures FormatDate(diffMs) == Some("vor " + IntToString(diffMs / DayMs) + " Tag" + (if diffMs >= 2 * DayMs then "en" else ""))
  {
  }

  // ---------------------------------------------------------------- mailbox buttons

  /**
   * An array-index property name: the canonical decimal text of an integer
   * below 2^32 - 1. `Object.keys` lists these first, in ascending numeric
   * order, and the other names after them in insertion order.
   */
  predicate IsIndexKey(k: string) {
    k != [] && AllDigits(k) && (k == "0" || k[0] != '0') && DecimalValue(k) < 0xFFFF_FFFF
  }

  predicate IsNameKey(k: string) { !IsIndexKey(k) }

  /** The numeric value of an index name (0 for any other name). */
  function IndexValue(k: string): nat { if IsIndexKey(k) then DecimalValue(k) else 0 }

  function NegIndex(k: string): int { -(IndexValue(k) as int) }

  /** `Object.keys` of an object whose properties were created in the order `names`. */
  function ObjectKeys(names: seq<string>): seq<string> {
    Ordering.SortDesc(Select(names, IsIndexKey), NegIndex) + Select(names, IsNameKey)
  }

  /** The keys are the names rearranged: nothing is added, dropped or repeated. */
  lemma {:induction false} ObjectKeysPermutes(names: seq<string>)
    ensures multiset(ObjectKeys(names)) == multiset(names)
  {
    var idx := Select(names, IsIndexKey);
    Ordering.SortDescSortedPermutation(idx, NegIndex);
    var keys := ObjectKeys(names);
    forall x ensures multiset(keys)[x] == multiset(names)[x] {
      SelectCounts(names, IsIndexKey, x);
      SelectCounts(names, IsNameKey, x);
    }
  }

  /** Index names come first, in ascending numeric order, then the other names as inserted. */
  lemma {:induction false} ObjectKeysOrder(names: seq<string>)
    ensures var keys := ObjectKeys(names);
      var n := |Select(names, IsIndexKey)|;
      && n <= |keys|
      && (forall i :: 0 <= i < n ==> IsIndexKey(keys[i]))
      && (forall i, j :: 0 <= i < j < n ==> IndexValue(keys[i]) <= IndexValue(keys[j]))
      && keys[n..] == Select(names, IsNameKey)
      && (forall i :: n <= i < |keys| ==> !IsIndexKey(keys[i]))
  {
    var idx := Select(names, IsIndexKey);
    var sorted := Ordering.SortDesc(idx, NegIndex);
    Ordering.SortDescSortedPermutation(idx, NegIndex);
    IndexBlock(idx, sorted);
    var keys := ObjectKeys(names);
    assert keys == sorted + Select(names, IsNameKey);
    assert keys[|idx|..] == Select(names, IsNameKey);
  }

  /** A sort of index names holds index names only, in ascending value. */
  lemma {:induction false} IndexBlock(idx: seq<string>, sorted: seq<string>)
    requires forall i :: 0 <= i < |idx| ==> IsIndexKey(idx[i])
    requires multiset(sorted) == multiset(idx) && Ordering.SortedDesc(sorted, NegIndex)
    ensures forall i :: 0 <= i < |sorted| ==> IsIndexKey(sorted[i])
    ensures forall i, j :: 0 <= i < j < |sorted| ==> IndexValue(sorted[i]) <= IndexValue(sorted[j])
  {
    forall i | 0 <= i < |sorted| ensures IsIndexKey(sorted[i]) {
      assert sorted[i] in multiset(idx);
    }
    forall i, j | 0 <= i < j < |sorted| ensures IndexValue(sorted[i]) <= IndexValue(sorted[j]) {
      assert NegIndex(sorted[i]) >= NegIndex(sorted[j]);
    }
  }

  /** Without index-like names the keys come in insertion order. */
  lemma {:induction false} ObjectKeysOfNames(names: seq<string>)
    requires forall i :: 0 <= i < |names| ==> IsNameKey(names[i])
    ensures ObjectKeys(names) == names
  {
    SelectAll(names, IsNameKey);
    SelectNone(names);
  }

  lemma {:induction false} SelectNone(names: seq<string>)
    requires forall i :: 0 <= i < |names| ==> IsNameKey(names[i])
    ensures Select(names, IsIndexKey) == []
  {
    if names != [] {
      SelectNone(names[1..]);
    }
  }

  function Names(counts: seq<(string, nat)>): (r: seq<string>)
    ensures |r| == |counts| && forall k :: 0 <= k < |counts| ==> r[k] == counts[k].0
  {
    seq(|counts|, k requires 0 <= k < |counts| => counts[k].0)
  }

  /** `stats ? ['all', ...Object.keys(stats.by_mailbox)] : ['all']`. */
  function Mailboxes(stats: Option<Voicemail.VoicemailStats>): (r: seq<string>)
    ensures |r| >= 1 && r[0] == AllMailboxes
    ensures stats.None? ==> r == [AllMailboxes]
  {
    [AllMailboxes] + (if stats.Some? then ObjectKeys(Names(stats.value.byMailbox)) else [])
  }

  /** After the server's statistics, the buttons are "all" and each mailbox that has messages, once. */
  lemma {:induction false} MailboxesFromServer(records: seq<Voicemail.VoicemailRecord>)
    ensures var r := Mailboxes(Some(Voicemail.StatsOf(records)));
      && r[0] == AllMailboxes
      && multiset(r[1..]) == multiset(Voicemail.MailboxesOf(records))
      && (forall i :: 0 <= i < |records| ==> records[i].mailbox in r[1..])
  {
    var names := Names(Voicemail.StatsOf(records).byMailbox);
    assert names == Voicemail.MailboxesOf(records);
    ObjectKeysPermutes(names);
    var r := Mailboxes(Some(Voicemail.StatsOf(records)));
    assert r[1..] == ObjectKeys(names);
    forall i | 0 <= i < |records| ensures records[i].mailbox in r[1..] {
      assert records[i].mailbox in multiset(names);
    }
  }

  /** `by_mailbox[name]`: the count stored under that name, if any. */
  function CountOf(counts: seq<(string, nat)>, name: string): Option<nat> {
    if counts == [] then None
    else if counts[0].0 == name then Some(counts[0].1)
    else CountOf(counts[1..], name)
  }

  datatype Button = Button(text: string, count: Option<nat>)

  /** A mailbox button: its caption, and the count badge shown only for a real mailbox with a non-zero count. */
  function MailboxButton(name: string, stats: Option<Voicemail.VoicemailStats>): (b: Button)
    ensures name == AllMailboxes ==> b == Button("Alle Mailboxen", None)
    ensures name != AllMailboxes ==> b.text == "Mailbox " + name
    ensures b.count.Some? ==> b.count.value > 0 && stats.Some? && CountOf(stats.value.byMailbox, name) == b.count
    ensures (name != AllMailboxes && stats.Some? && CountOf(stats.value.byMailbox, name).Some?
             && CountOf(stats.value.byMailbox, name).value != 0) ==> b.count == CountOf(stats.value.byMailbox, name)
  {
    if name == AllMailboxes then Button("Alle Mailboxen", None)
    else
      var c := if stats.Some? then CountOf(stats.value.byMailbox, name) else None;
      Button("Mailbox " + name, if c.Some? && c.value != 0 then c else None)
  }

  // ---------------------------------------------------------------- the list

  datatype Item = Item(key: int, isNew: bool, caller: string, box: string, date: int,
                       duration: string, selected: bool, player: bool)

  /** One message of the list; the player is shown under the selected one. */
  function ItemOf(m: Message, selected: Option<Message>): (it: Item)
    ensures it.key == m.id && it.isNew == !m.isRead && it.caller != ""
    ensures it.selected == it.player == (selected.Some? && selected.value.id == m.id)
  {
    var sel := selected.Some? && selected.value.id == m.id;
    Item(m.id, !m.isRead, OrText(m.callerId, "Unbekannt"), "Box " + m.mailbox, m.date,
         FormatDuration(m.duration), sel, sel)
  }

  datatype Content = Spinner | NoMessages(text: string) | Items(items: seq<Item>)

  const NoUnreadText := "Keine ungelesenen Voicemails vorhanden."
  const NoneText := "Es sind keine Voicemails vorhanden."

  /** The content area: the spinner, the empty state (worded after the toggle), or one item per message in order. */
  function ContentOf(loading: bool, list: seq<Message>, selected: Option<Message>, unreadOnly: bool): (c: Content)
    ensures c == Spinner <==> loading
    ensures c.NoMessages? <==> !loading && list == []
    ensures c.NoMessages? ==> c.text == if unreadOnly then NoUnreadText else NoneText
    ensures c.Items? ==> |c.items| == |list| && forall i :: 0 <= i < |list| ==> c.items[i] == ItemOf(list[i], selected)
  {
    if loading then Spinner
    else if list == [] then NoMessages(if unreadOnly then NoUnreadText else NoneText)
    else Items(seq(|list|, i requires 0 <= i < |list| => ItemOf(list[i], selected)))
  }

  /** A selected message is shown expanded in at most one place when ids are distinct. */
  lemma {:induction false} AtMostOnePlayer(list: seq<Message>, selected: Option<Message>, unreadOnly: bool, i: nat, j: nat)
    requires forall a, b :: 0 <= a < b < |list| ==> list[a].id != list[b].id
    requires i < j
    requires ContentOf(false, list, selected, unreadOnly).Items?
    requires j < |ContentOf(false, list, selected, unreadOnly).items|
    ensures !(ContentOf(false, list, selected, unreadOnly).items[i].player && ContentOf(false, list, selected, unreadOnly).items[j].player)
  {
    var items := ContentOf(false, list, selected, unreadOnly).items;
    assert items[i] == ItemOf(list[i], selected) && items[j] == ItemOf(list[j], selected);
  }

  // ---------------------------------------------------------------- the component

  /** How the list request ends: an array, some other body, or an error. */
  datatype ListReply = ArrayBody(messages: seq<Message>) | OtherBody | RequestError

  /** A mark-read request in flight, with the scope the handler's closure saw. */
  datatype PendingMark = PendingMark(id: int, seen: Scope)

  /** A confirmed delete in flight, with the list and selection of the render that issued it. */
  datatype PendingDelete = PendingDelete(id: int, list: seq<Message>, selection: Option<Message>)

  class VoicemailPageState {
    var voicemails: seq<Message>
    var stats: Option<Voicemail.VoicemailStats>
    var loading: bool
    var selectedMailbox: string
    var selected: Option<Message>
    var showUnreadOnly: bool

    function CurrentScope(): Scope
      reads this
    {
      Scope(selectedMailbox, showUnreadOnly)
    }

    /** The first render, before the effect has run. */
    constructor ()
      ensures voicemails == [] && stats.None? && loading && selected.None?
      ensures CurrentScope() == Scope(AllMailboxes, false)
    {
      voicemails := [];
      stats := None;
      loading := true;
      selectedMailbox := AllMailboxes;
      selected := None;
      showUnreadOnly := false;
    }

    /** The first half of `fetchVoicemails` for the scope its closure saw. */
    method StartFetchVoicemails(seen: Scope) returns (params: ListParams)
      modifies this
      ensures loading && params == ParamsFor(seen)
      ensures voicemails == old(voicemails) && stats == old(stats) && selected == old(selected)
      ensures CurrentScope() == old(CurrentScope())
    {
      loading := true;
      params := BuildParams(seen);
    }

    /** The second half: an array body becomes the list, anything else empties it; loading ends. */
    method FinishFetchVoicemails(reply: ListReply)
      modifies this
      ensures !loading
      ensures voicemails == if reply.ArrayBody? then reply.messages else []
      ensures stats == old(stats) && selected == old(selected) && CurrentScope() == old(CurrentScope())
    {
      if reply.ArrayBody? {
        voicemails := reply.messages;
      } else {
        voicemails := [];
      }
      loading := false;
    }

    /** `fetchStats`'s reply: a body replaces the statistics, an error keeps the old ones. */
    method FinishFetchStats(reply: Option<Voicemail.VoicemailStats>)
      modifies this
      ensures stats == if reply.Some? then reply else old(stats)
      ensures voicemails == old(voicemails) && loading == old(loading) && selected == old(selected)
      ensures CurrentScope() == old(CurrentScope())
    {
      if reply.Some? {
        stats := reply;
      }
    }

    /**
     * A change of mailbox or toggle. When the scope changes, the effect
     * fetches the list for the new scope (`list`) and the statistics
     * (`statsRequested`); the selection is kept either way.
     */
    method ChangeScope(s: Scope) returns (list: Option<ListParams>, statsRequested: bool)
      modifies this
      ensures CurrentScope() == s
      ensures statsRequested <==> s != old(CurrentScope())
      ensures list.Some? <==> statsRequested
      ensures list.Some? ==> list.value == ParamsFor(s) && loading
      ensures list.None? ==> loading == old(loading)
      ensures voicemails == old(voicemails) && stats == old(stats) && selected == old(selected)
    {
      var before := CurrentScope();
      selectedMailbox, showUnreadOnly := s.mailbox, s.unreadOnly;
      if s != before {
        var p := StartFetchVoicemails(s);
        list, statsRequested := Some(p), true;
      } else {
        list, statsRequested := None, false;
      }
    }

    /** A click on a message selects it, and asks to mark it read only when it is unread. */
    method ClickMessage(m: Message) returns (mark: Option<PendingMark>)
      modifies this
      ensures selected == Some(m)
      ensures mark.Some? <==> !m.isRead
      ensures mark.Some? ==> mark.value == PendingMark(m.id, old(CurrentScope()))
      ensures voicemails == old(voicemails) && stats == old(stats) && loading == old(loading)
      ensures CurrentScope() == old(CurrentScope())
    {
      selected := Some(m);
      if !m.isRead {
        mark := Some(PendingMark(m.id, CurrentScope()));
      } else {
        mark := None;
      }
    }

    /** The reply to a mark-read request: success refetches the list (for the scope seen at the click) and the statistics; failure changes nothing. */
    method FinishMarkRead(p: PendingMark, ok: bool) returns (list: Option<ListParams>, statsRequested: bool)
      modifies this
      ensures list.Some? <==> ok
      ensures statsRequested <==> ok
      ensures ok ==> list.value == ParamsFor(p.seen) && loading
      ensures !ok ==> loading == old(loading)
      ensures voicemails == old(voicemails) && stats == old(stats) && selected == old(selected)
      ensures CurrentScope() == old(CurrentScope())
    {
      if ok {
        var q := StartFetchVoicemails(p.seen);
        list, statsRequested := Some(q), true;
      } else {
        list, statsRequested := None, false;
      }
    }

    /** The player's delete button: nothing happens unless the dialog is confirmed. */
    method StartDelete(id: int, confirmed: bool) returns (p: Option<PendingDelete>)
      ensures p.Some? <==> confirmed
      ensures p.Some? ==> p.value == PendingDelete(id, voicemails, selected)
    {
      if confirmed {
        p := Some(PendingDelete(id, voicemails, selected));
      } else {
        p := None;
      }
    }

    /**
     * The reply to a delete: on success the list becomes the issuing
     * render's list without that id, the selection is cleared when the
     * selection of that render had the id, and the statistics are
     * refetched; on failure nothing changes.
     */
    method FinishDelete(p: PendingDelete, ok: bool) returns (statsRequested: bool)
      modifies this
      ensures statsRequested <==> ok
      ensures ok ==> voicemails == WithoutId(p.list, p.id)
      ensures ok ==> selected == if p.selection.Some? && p.selection.value.id == p.id then None else old(selected)
      ensures !ok ==> voicemails == old(voicemails) && selected == old(selected)
      ensures stats == old(stats) && loading == old(loading) && CurrentScope() == old(CurrentScope())
    {
      statsRequested := ok;
      if ok {
        voicemails := WithoutId(p.list, p.id);
        if p.selection.Some? && p.selection.value.id == p.id {
          selected := None;
        }
      }
    }
  }
}
