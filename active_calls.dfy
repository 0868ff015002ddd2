/**
 * The dashboard's active-calls widget: the empty state, the count badge, one
 * item per call keyed by its channel (or its position when the channel is
 * empty), and each item's seconds counter, which starts at zero when the
 * item mounts, rises by one per interval tick and stops on unmount; the
 * elapsed time is shown only for a connected call.
 */
module ActiveCalls {
  import opened Text
  import opened Wrappers
  import Duration

  /** One call as the widget receives it. */
  datatype Call = Call(channel: string, caller: string, destination: string, state: string, startTime: string)

  const Connected := "connected"
  const Ringing := "ringing"

  /** `key={call.channel || index}`; React compares keys as text, so the index counts as its decimal form. */
  function ItemKey(c: Call, index: nat): (k: string)
    ensures k != ""
    ensures c.channel != "" ==> k == c.channel
    ensures c.channel == "" ==> AllDigits(k) && DecimalValue(k) == index
  {
    DecimalOfNatToString(index);
    if c.channel != "" then c.channel else NatToString(index)
  }

  function Keys(calls: seq<Call>): (ks: seq<string>)
    ensures |ks| == |calls| && forall i :: 0 <= i < |calls| ==> ks[i] == ItemKey(calls[i], i)
  {
    seq(|calls|, i requires 0 <= i < |calls| => ItemKey(calls[i], i))
  }

  /** Distinct channels that never look like a number give every item a distinct key, empty channels included. */
  lemma {:induction false} KeysDistinct(calls: seq<Call>)
    requires forall i :: 0 <= i < |calls| && calls[i].channel != "" ==> !AllDigits(calls[i].channel)
    requires forall i, j :: 0 <= i < j < |calls| && calls[i].channel != "" ==> calls[i].channel != calls[j].channel
    ensures forall i, j :: 0 <= i < j < |calls| ==> Keys(calls)[i] != Keys(calls)[j]
  {
    var ks := Keys(calls);
    forall i, j | 0 <= i < j < |calls| ensures ks[i] != ks[j] {
      if calls[i].channel == "" && calls[j].channel == "" {
        assert DecimalValue(ks[i]) == i && DecimalValue(ks[j]) == j;
      }
    }
  }

  /** A channel that reads as a number can collide with the position key of an empty channel. */
  lemma {:induction false} NumericChannelCollides()
    ensures var calls := [Call("1", "", "", "", ""), Call("", "", "", "", "")];
      Keys(calls)[0] == Keys(calls)[1]
  {
    var calls := [Call("1", "", "", "", ""), Call("", "", "", "", "")];
    assert ItemKey(calls[1], 1) == NatToString(1) == "1";
  }

  const GreenState := "text-green-600 bg-green-50"
  const YellowState := "text-yellow-600 bg-yellow-50"
  const GrayState := "text-gray-600 bg-gray-50"

  /** `getStateColor`: green when connected, yellow when ringing, gray for any other state. */
  function StateColor(state: string): (r: string)
    ensures r == GreenState <==> state == Connected
    ensures r == YellowState <==> state == Ringing
    ensures r == GrayState <==> state != Connected && state != Ringing
  {
    if state == Connected then GreenState
    else if state == Ringing then YellowState
    else GrayState
  }

  datatype Icon = PhoneIcon | PhoneOffIcon

  /** `getStateIcon`: only a ringing call shows the crossed-out, pulsing handset. */
  function StateIcon(state: string): (r: Icon)
    ensures r == PhoneOffIcon <==> state == Ringing
  {
    if state == Ringing then PhoneOffIcon else PhoneIcon
  }

  /** `s || 'Unknown'`. */
  function OrUnknown(s: string): (r: string)
    ensures r != ""
    ensures s != "" ==> r == s
  {
    OrText(s, "Unknown")
  }

  /** `formatDuration` of the item's counter. */
  function FormatDuration(seconds: nat): (r: string)
    ensures Duration.ParseMinSec(r) == Some(seconds)
  {
    Duration.MinSecRoundTrip(seconds);
    Duration.MinSec(seconds)
  }

  datatype ItemView = ItemView(color: string, icon: Icon, caller: string, destination: string,
                               state: string, elapsed: Option<string>)

  /** One rendered item: the elapsed time appears exactly for a connected call and shows the counter. */
  function ItemOf(c: Call, seconds: nat): (v: ItemView)
    ensures v.elapsed.Some? <==> c.state == Connected
    ensures v.elapsed.Some? ==> Duration.ParseMinSec(v.elapsed.value) == Some(seconds)
    ensures v.caller != "" && v.destination != "" && v.state == c.state
  {
    ItemView(StateColor(c.state), StateIcon(c.state), OrUnknown(c.caller), OrUnknown(c.destination), c.state,
             if c.state == Connected then Some(FormatDuration(seconds)) else None)
  }

  datatype Widget = NoActiveCalls | Active(badge: string, keys: seq<string>)

  /**
   * The widget: the "No active calls" card for an empty list, otherwise the count badge and one
   * keyed item per call; the badge's number reads back as the number of calls.
   */
  function WidgetOf(calls: seq<Call>): (w: Widget)
    ensures w == NoActiveCalls <==> calls == []
    ensures w.Active? ==> w.badge == NatToString(|calls|) + " active" && w.keys == Keys(calls)
    ensures w.Active? ==> |w.keys| == |calls|
    ensures w.Active? ==> |w.badge| > 7 && DecimalValue(w.badge[..|w.badge| - 7]) == |calls|
  {
    if |calls| == 0 then NoActiveCalls
    else
      var badge := NatToString(|calls|) + " active";
      DecimalOfNatToString(|calls|);
      assert badge[..|badge| - 7] == NatToString(|calls|);
      Active(badge, Keys(calls))
  }

  /** A mounted `CallItem`: its seconds counter and whether its interval is still registered. */
  class CallItem {
    var call: Call
    var seconds: nat
    var running: bool

    /** Mounting: the counter starts at zero and the interval is set. */
    constructor (c: Call)
      ensures call == c && seconds == 0 && running
    {
      call := c;
      seconds := 0;
      running := true;
    }

    /** One interval callback: `setDuration(d => d + 1)`. */
    method Tick()
      requires running
      modifies this
      ensures seconds == old(seconds) + 1
      ensures call == old(call) && running
    {
      seconds := seconds + 1;
    }

    /** A new render with the same key: new props, the counter and interval kept (a state change does not restart it). */
    method Receive(c: Call)
      modifies this
      ensures call == c && seconds == old(seconds) && running == old(running)
    {
      call := c;
    }

    /** Unmounting clears the interval; no tick can follow. */
    method Unmount()
      modifies this
      ensures !running && seconds == old(seconds) && call == old(call)
    {
      running := false;
    }

    /** What the item renders now. */
    function View(): ItemView
      reads this
    {
      ItemOf(call, seconds)
    }
  }
}
