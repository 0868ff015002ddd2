/**
 * The "minutes:seconds" rendering of a duration that the CDR page, the
 * voicemail page and the active-calls widget each define the same way:
 * minutes by floor division, seconds by JavaScript's remainder (which keeps
 * the sign of the dividend), the seconds padded on the left with '0' to two
 * characters.
 */
module Duration {
  import opened Wrappers
  import opened Text

  /** Integer division rounded toward zero, as JavaScript's `%` is defined from it. */
  function TruncDiv(a: int, b: int): int
    requires b > 0
  {
    if a >= 0 then a / b else -((-a) / b)
  }

  /** JavaScript's `%` on integers: the remainder has the dividend's sign. */
  function JsRem(a: int, b: int): (r: int)
    requires b > 0
    ensures r == a - b * TruncDiv(a, b)
    ensures -b < r < b
    ensures a >= 0 ==> 0 <= r
    ensures a < 0 ==> r <= 0
  {
    if a >= 0 then a % b
    else
      assert -a == b * ((-a) / b) + (-a) % b;
      -((-a) % b)
  }

  /** String.prototype.padStart(2, "0"). */
  function PadStart2(s: string): (r: string)
    ensures |s| >= 2 ==> r == s
    ensures |s| < 2 ==> |r| == 2 && r[2 - |s|..] == s && forall i :: 0 <= i < 2 - |s| ==> r[i] == '0'
  {
    if |s| == 0 then "00" else if |s| == 1 then "0" + s else s
  }

  /** The rendering for any integer number of seconds (Dafny's `/` by 60 is floor division here). */
  function MinSec(seconds: int): string {
    IntToString(seconds / 60) + ":" + PadStart2(IntToString(JsRem(seconds, 60)))
  }

  /** Reads "m:ss" back: two colon-separated runs of digits. */
  function ParseMinSec(t: string): Option<nat> {
    var parts := Split(t, ':');
    if |parts| == 2 && parts[0] != [] && parts[1] != [] && AllDigits(parts[0]) && AllDigits(parts[1]) then
      Some(60 * DecimalValue(parts[0]) + DecimalValue(parts[1]))
    else
      None
  }

  /** A non-negative duration is its minutes, a colon and two digits of seconds. */
  lemma {:induction false} MinSecParts(seconds: nat)
    ensures var p := PadStart2(NatToString(seconds % 60));
      && MinSec(seconds) == NatToString(seconds / 60) + [':'] + p
      && |p| == 2 && AllDigits(p) && DecimalValue(p) == seconds % 60
      && DecimalValue(NatToString(seconds / 60)) == seconds / 60
  {
    var b := NatToString(seconds % 60);
    NatToStringLength(seconds % 60);
    DecimalOfNatToString(seconds / 60);
    DecimalOfNatToString(seconds % 60);
    if |b| == 1 {
      DecimalLeadingZero(b);
      assert PadStart2(b) == "0" + b;
    }
  }

  /** Non-negative durations are rendered without loss: reading the text back gives the seconds. */
  lemma {:induction false} MinSecRoundTrip(seconds: nat)
    ensures ParseMinSec(MinSec(seconds)) == Some(seconds)
  {
    MinSecParts(seconds);
    var a := NatToString(seconds / 60);
    var p := PadStart2(NatToString(seconds % 60));
    DigitsExclude(a, ':');
    DigitsExclude(p, ':');
    SplitAfterPiece(a, ':', p);
    SplitNoSep(p, ':');
    assert Split(MinSec(seconds), ':') == [a, p];
    ParseOfParts(MinSec(seconds), a, p, seconds);
  }

  /** Two colon-separated runs of digits read back as minutes and seconds. */
  lemma {:induction false} ParseOfParts(t: string, a: string, p: string, total: nat)
    requires Split(t, ':') == [a, p]
    requires a != [] && p != [] && AllDigits(a) && AllDigits(p)
    requires 60 * DecimalValue(a) + DecimalValue(p) == total
    ensures ParseMinSec(t) == Some(total)
  {
  }

  /** MinSec is one-to-one on non-negative durations. */
  lemma {:induction false} MinSecInjective(x: nat, y: nat)
    requires MinSec(x) == MinSec(y)
    ensures x == y
  {
    MinSecRoundTrip(x);
    MinSecRoundTrip(y);
  }

  /** A negative duration shows a negative seconds field: -5 seconds reads "-1:-5". */
  lemma {:induction false} MinSecNegative()
    ensures MinSec(-5) == "-1:-5"
  {
    assert -5 / 60 == -1;
    assert JsRem(-5, 60) == -5;
    assert NatToString(1) == "1" && NatToString(5) == "5";
  }
}
