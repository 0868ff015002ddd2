/**
 * The text parsing of the SIP debug capture (backend/sip_debug.py): the AMI
 * `Command` response flattened to text, the `pjsip show history` listing, the
 * header line of one `pjsip show history entry N` dump, the SIP start line and
 * the Call-ID / From / To / CSeq headers.
 *
 * Every regular expression of the source is modelled as a chain of steps over
 * the rest of the text. Each `\s+`, `\d+` or `\S+` is a maximal non-empty run
 * (`Token`): in these patterns the character after each run can never start
 * the run's successor if the run were shorter, so backtracking cannot change
 * a match.
 */
module SipParse {
  import opened Wrappers
  import opened Text

  datatype Direction = Received | Sent

  /** One captured SIP message; timestamps are whole seconds since the epoch. */
  datatype SipMessage = SipMessage(
    timestamp: int,
    direction: Direction,
    sipMethod: string,
    statusCode: int,
    callId: string,
    fromHeader: string,
    toHeader: string,
    cseq: string,
    rawText: string,
    addr: string)

  // ---------------------------------------------------------------- AMI responses

  /** The value of an `Output` or `content` key of an AMI message. */
  datatype Field = Absent | Scalar(value: string) | Listed(values: seq<string>)

  /** One element of a response: a bare string or a message with keys. */
  datatype Item = Plain(text: string) | Message(output: Field, content: Field)

  /** What the AMI client returned: nothing, one item or a list of items. */
  datatype Response = NoResponse | Single(item: Item) | Batch(items: seq<Item>)

  predicate Truthy(f: Field) {
    match f
    case Absent => false
    case Scalar(v) => v != ""
    case Listed(vs) => vs != []
  }

  function FieldParts(f: Field): seq<string> {
    match f
    case Absent => []
    case Scalar(v) => [v]
    case Listed(vs) => vs
  }

  /** The text parts one item contributes: its Output, or else its content. */
  function ItemParts(item: Item): (r: seq<string>)
    ensures item.Message? && Truthy(item.output) ==> r == FieldParts(item.output)
    ensures item.Message? && !Truthy(item.output) && !Truthy(item.content) ==> r == []
  {
    match item
    case Plain(t) => [t]
    case Message(out, content) =>
      (if Truthy(out) then FieldParts(out) else [])
      + (if Truthy(content) && !Truthy(out) then FieldParts(content) else [])
  }

  function AllParts(items: seq<Item>): seq<string> {
    if items == [] then [] else AllParts(items[..|items| - 1]) + ItemParts(items[|items| - 1])
  }

  lemma {:induction false} AllPartsSnoc(items: seq<Item>, i: nat)
    requires i < |items|
    ensures AllParts(items[..i + 1]) == AllParts(items[..i]) + ItemParts(items[i])
  {
    assert items[..i + 1][..i] == items[..i];
  }

  function ResponseItems(r: Response): seq<Item> {
    match r
    case NoResponse => []
    case Single(item) => [item]
    case Batch(items) => items
  }

  predicate Falsy(r: Response) {
    r.NoResponse? || r == Batch([]) || r == Single(Plain(""))
  }

  /** The response's text: all parts joined by newlines. */
  function CommandOutput(r: Response): string {
    if Falsy(r) then "" else Join(AllParts(ResponseItems(r)), '\n')
  }

  /** A single message with multi-line Output gives those lines back, one per line. */
  lemma {:induction false} CommandOutputLines(lines: seq<string>, content: Field)
    requires lines != []
    requires forall i :: 0 <= i < |lines| ==> '\n' !in lines[i]
    ensures Split(CommandOutput(Single(Message(Listed(lines), content))), '\n') == lines
  {
    var item := Message(Listed(lines), content);
    var r := Single(item);
    assert [item][..0] == [];
    assert AllParts([item]) == lines;
    assert CommandOutput(r) == Join(lines, '\n');
    SplitJoin(lines, '\n');
  }

  /** The parts one item contributes, as the loop body computes them. */
  method ItemOutput(item: Item) returns (added: seq<string>)
    ensures added == ItemParts(item)
  {
    added := [];
    match item {
      case Plain(t) =>
        added := [t];
      case Message(out, content) =>
        if Truthy(out) {
          added := added + FieldParts(out);
        }
        if Truthy(content) && !Truthy(out) {
          added := added + FieldParts(content);
        }
    }
  }

  /** Loop form of the extraction, as the source walks the items. */
  method ExtractCommandOutput(r: Response) returns (output: string)
    ensures output == CommandOutput(r)
  {
    if Falsy(r) {
      return "";
    }
    var items := ResponseItems(r);
    var parts: seq<string> := [];
    var i := 0;
    while i < |items|
      invariant 0 <= i <= |items|
      invariant parts == AllParts(items[..i])
    {
      var added := ItemOutput(items[i]);
      AllPartsSnoc(items, i);
      parts := parts + added;
      i := i + 1;
    }
    assert items[..i] == items;
    output := Join(parts, '\n');
  }

  // ---------------------------------------------------------------- matching steps

  /** A literal at the front of s, and the rest. */
  function Literal(s: string, w: string): (r: Option<string>)
    ensures r.Some? <==> StartsWith(s, w)
    ensures r.Some? ==> s == w + r.value
  {
    if StartsWith(s, w) then
      assert s == s[..|w|] + s[|w|..];
      Some(s[|w|..])
    else None
  }

  /** A maximal non-empty run of characters satisfying p, and the rest. */
  function Token(s: string, p: char -> bool): (r: Option<(string, string)>)
    ensures r.Some? ==> r.value.0 != [] && r.value.0 + r.value.1 == s
    ensures r.None? <==> s == [] || !p(s[0])
  {
    var (w, rest) := Span(s, p);
    if w == [] then None else Some((w, rest))
  }

  /** Token finds exactly the run it is given. */
  lemma {:induction false} TokenOf(w: string, rest: string, p: char -> bool)
    requires w != [] && forall k :: 0 <= k < |w| ==> p(w[k])
    requires rest != [] ==> !p(rest[0])
    ensures Token(w + rest, p) == Some((w, rest))
  {
    SpanOf(w, rest, p);
  }

  lemma {:induction false} LiteralOf(w: string, rest: string)
    ensures Literal(w + rest, w) == Some(rest)
  {
    assert (w + rest)[..|w|] == w;
  }

  // ---------------------------------------------------------------- history listing

  /** `(<==>|<==|==>)\s+`: the first alternative that whitespace follows, and the text after that whitespace. */
  function ArrowThenSpaces(s: string): Option<string> {
    if StartsWith(s, "<==>") && Token(s[4..], IsSpace).Some? then Some(Token(s[4..], IsSpace).value.1)
    else if StartsWith(s, "<==") && Token(s[3..], IsSpace).Some? then Some(Token(s[3..], IsSpace).value.1)
    else if StartsWith(s, "==>") && Token(s[3..], IsSpace).Some? then Some(Token(s[3..], IsSpace).value.1)
    else None
  }

  /**
   * The history list pattern `^(\d{5})\s+(\d+)\s+\*\s+(<==>|<==|==>)\s+(\S+)\s+(.+)$`
   * applied to the stripped line: the value of the five digits when it matches.
   * On stripped text the final `(.+)$` matches exactly when a non-empty rest
   * without a newline follows the address and its whitespace.
   */
  function HistoryEntryNumber(line: string): (r: Option<nat>)
    ensures r.Some? ==> r.value < 100000
  {
    var t := Strip(line);
    if |t| < 5 || !AllDigits(t[..5]) then None
    else
      match HistoryHead(t[5..])
      case None => None
      case Some(r4) =>
        if HistoryTail(r4) then
          FiveDigitsBound(t[..5]);
          Some(DecimalValue(t[..5]))
        else None
  }

  /** The history pattern after the five digits, up to the `*`: `\s+(\d+)\s+\*`. */
  function HistoryHead(r0: string): Option<string> {
    match Token(r0, IsSpace)
    case None => None
    case Some((_, r1)) =>
      match Token(r1, IsDigit)
      case None => None
      case Some((_, r2)) =>
        match Token(r2, IsSpace)
        case None => None
        case Some((_, r3)) => Literal(r3, "*")
  }

  /** The rest of the history pattern after the `*`: `\s+(<==>|<==|==>)\s+(\S+)\s+(.+)$`. */
  predicate HistoryTail(r4: string) {
    match Token(r4, IsSpace)
    case None => false
    case Some((_, r5)) =>
      match ArrowThenSpaces(r5)
      case None => false
      case Some(r6) => AddressAndSummary(r6)
  }

  /** The pattern after the arrow and its whitespace: `(\S+)\s+(.+)$`. */
  predicate AddressAndSummary(r6: string) {
    match Token(r6, NotSpace)
    case None => false
    case Some((_, r7)) =>
      match Token(r7, IsSpace)
      case None => false
      case Some((_, r8)) => r8 != [] && '\n' !in r8
  }

  lemma {:induction false} FiveDigitsBound(s: string)
    requires |s| == 5 && AllDigits(s)
    ensures DecimalValue(s) < 100000
  {
    DecimalBound(s);
    assert Pow10(5) == 100000;
  }

  /** A listing line as Asterisk prints it: zero-padded entry number, epoch, `*`, arrow, address, summary. */
  function HistoryLine(n: nat, epoch: nat, arrow: string, addr: string, summary: string): string
    requires n < 100000
  {
    ZeroPad(NatToString(n), 5) + (" " + (NatToString(epoch) + (" " + ("*" + (" " + (arrow + (" " + (addr + ("     " + summary)))))))))
  }

  predicate IsArrow(arrow: string) {
    arrow == "<==" || arrow == "==>" || arrow == "<==>"
  }

  predicate IsWord(w: string) {
    w != [] && forall k :: 0 <= k < |w| ==> !IsSpace(w[k])
  }

  lemma {:induction false} ArrowOf(arrow: string, rest: string)
    requires IsArrow(arrow)
    requires rest != [] && !IsSpace(rest[0])
    ensures ArrowThenSpaces(arrow + (" " + rest)) == Some(rest)
  {
    var s := arrow + (" " + rest);
    TokenOf(" ", rest, IsSpace);
    assert s[|arrow|..] == " " + rest;
    if arrow == "<==" {
      assert s[3] == ' ';
    }
  }

  /** The entry number of every well-formed listing line is found. */
  lemma {:induction false} HistoryLineNumber(n: nat, epoch: nat, arrow: string, addr: string, summary: string)
    requires n < 100000
    requires IsArrow(arrow) && IsWord(addr)
    requires summary != [] && IsStripped(summary) && '\n' !in summary
    ensures HistoryEntryNumber(HistoryLine(n, epoch, arrow, addr, summary)) == Some(n)
  {
    var p := ZeroPad(NatToString(n), 5);
    PaddedNumber(n);
    var r4 := " " + (arrow + (" " + (addr + ("     " + summary))));
    var rest := " " + (NatToString(epoch) + (" " + ("*" + r4)));
    assert HistoryLine(n, epoch, arrow, addr, summary) == p + rest;
    HistoryTailOf(arrow, addr, summary);
    HistoryHeadOf(epoch, r4);
    HistoryRestEnds(NatToString(epoch), arrow, addr, summary);
    HistoryNumberOf(p, rest, r4);
  }

  lemma {:induction false} LastOfAppend(a: string, b: string)
    requires b != []
    ensures (a + b)[|a + b| - 1] == b[|b| - 1]
  {
  }

  /** The rest of a listing line ends where its summary ends. */
  lemma {:induction false} HistoryRestEnds(e: string, arrow: string, addr: string, summary: string)
    requires summary != []
    ensures var rest := " " + (e + (" " + ("*" + (" " + (arrow + (" " + (addr + ("     " + summary))))))));
      rest != [] && rest[|rest| - 1] == summary[|summary| - 1]
  {
    var r7 := "     " + summary;
    LastOfAppend("     ", summary);
    var r6 := addr + r7;
    LastOfAppend(addr, r7);
    var r5a := " " + r6;
    LastOfAppend(" ", r6);
    var r5 := arrow + r5a;
    LastOfAppend(arrow, r5a);
    var r4 := " " + r5;
    LastOfAppend(" ", r5);
    var r3 := "*" + r4;
    LastOfAppend("*", r4);
    var r2 := " " + r3;
    LastOfAppend(" ", r3);
    var r1 := e + r2;
    LastOfAppend(e, r2);
    LastOfAppend(" ", r1);
  }

  /** The zero-padded form of a five-digit number is five digits worth that number. */
  lemma {:induction false} PaddedNumber(n: nat)
    requires n < 100000
    ensures var p := ZeroPad(NatToString(n), 5);
      |p| == 5 && AllDigits(p) && DecimalValue(p) == n && !IsSpace(p[0])
  {
    assert Pow10(5) == 100000;
    NatToStringFits(n, 5);
    DecimalOfNatToString(n);
  }

  /** A stripped line of five digits followed by the rest of the pattern yields those digits' value. */
  lemma {:induction false} HistoryNumberOf(p: string, rest: string, r4: string)
    requires |p| == 5 && AllDigits(p) && !IsSpace(p[0])
    requires rest != [] && !IsSpace(rest[|rest| - 1])
    requires HistoryHead(rest) == Some(r4) && HistoryTail(r4)
    ensures HistoryEntryNumber(p + rest) == Some(DecimalValue(p))
  {
    var line := p + rest;
    LastOfAppend(p, rest);
    assert IsStripped(line) by {
      assert line[0] == p[0];
    }
    StripNoop(line);
    assert line[..5] == p && line[5..] == rest;
    DigitsOfMatch(line, p, r4);
  }

  lemma {:induction false} DigitsOfMatch(t: string, p: string, r4: string)
    requires Strip(t) == t && |t| >= 5 && t[..5] == p && AllDigits(p)
    requires HistoryHead(t[5..]) == Some(r4) && HistoryTail(r4)
    ensures HistoryEntryNumber(t) == Some(DecimalValue(p))
  {
  }

  lemma {:induction false} HistoryHeadOf(epoch: nat, r4: string)
    requires r4 != [] && IsSpace(r4[0])
    ensures HistoryHead(" " + (NatToString(epoch) + (" " + ("*" + r4)))) == Some(r4)
  {
    var e := NatToString(epoch);
    var r3 := "*" + r4;
    var r2 := " " + r3;
    var r1 := e + r2;
    TokenOf(" ", r1, IsSpace);
    TokenOf(e, r2, IsDigit);
    TokenOf(" ", r3, IsSpace);
    LiteralOf("*", r4);
  }

  lemma {:induction false} HistoryTailOf(arrow: string, addr: string, summary: string)
    requires IsArrow(arrow) && IsWord(addr)
    requires summary != [] && IsStripped(summary) && '\n' !in summary
    ensures HistoryTail(" " + (arrow + (" " + (addr + ("     " + summary)))))
  {
    var r6 := addr + ("     " + summary);
    var r5 := arrow + (" " + r6);
    TokenOf(" ", r5, IsSpace);
    ArrowOf(arrow, r6);
    AddressAndSummaryOf(addr, summary);
  }

  lemma {:induction false} AddressAndSummaryOf(addr: string, summary: string)
    requires IsWord(addr)
    requires summary != [] && IsStripped(summary) && '\n' !in summary
    ensures AddressAndSummary(addr + ("     " + summary))
  {
    var r7 := "     " + summary;
    TokenOf(addr, r7, NotSpace);
    TokenOf("     ", summary, IsSpace);
  }

  /**
   * The entry numbers newer than `last` that the lines carry, in line order;
   * `number` reads the entry number off one line.
   */
  function NewerEntries(lines: seq<string>, last: int, number: string -> Option<nat>): (r: seq<nat>)
    ensures forall i :: 0 <= i < |r| ==> r[i] > last
    ensures |r| <= |lines|
  {
    if lines == [] then []
    else
      var rest := NewerEntries(lines[..|lines| - 1], last, number);
      match number(lines[|lines| - 1])
      case Some(n) => if n > last then rest + [n] else rest
      case None => rest
  }

  lemma {:induction false} NewerEntriesStep(lines: seq<string>, i: nat, last: int, number: string -> Option<nat>)
    requires i < |lines|
    ensures NewerEntries(lines[..i + 1], last, number)
         == NewerEntries(lines[..i], last, number)
            + (if number(lines[i]).Some? && number(lines[i]).value > last then [number(lines[i]).value] else [])
  {
    assert lines[..i + 1][..i] == lines[..i];
  }

  /** The listing's entries that are newer than the last one polled. */
  function NewEntries(lines: seq<string>, last: int): seq<nat> {
    NewerEntries(lines, last, HistoryEntryNumber)
  }

  /** Some line carries entry number n. */
  predicate Carries(lines: seq<string>, n: nat, number: string -> Option<nat>) {
    exists i :: 0 <= i < |lines| && number(lines[i]) == Some(n)
  }

  /** A number is collected exactly when some line carries it and it is newer. */
  lemma {:induction false} NewerEntriesComplete(lines: seq<string>, last: int, n: nat, number: string -> Option<nat>)
    ensures n in NewerEntries(lines, last, number) <==> n > last && Carries(lines, n, number)
  {
    if lines != [] {
      var init := lines[..|lines| - 1];
      var final := lines[|lines| - 1];
      NewerEntriesComplete(init, last, n, number);
      if Carries(lines, n, number) {
        var i :| 0 <= i < |lines| && number(lines[i]) == Some(n);
        if i < |init| {
          assert init[i] == lines[i];
          assert Carries(init, n, number);
        }
      }
      if Carries(init, n, number) {
        var i :| 0 <= i < |init| && number(init[i]) == Some(n);
        assert lines[i] == init[i];
      }
      if number(final) == Some(n) {
        assert Carries(lines, n, number);
      }
    }
  }

  /** Every reported entry is newer than the last one polled, has five digits, and is listed. */
  lemma {:induction false} NewEntriesSound(lines: seq<string>, last: int, n: nat)
    ensures n in NewEntries(lines, last) <==> n > last && Carries(lines, n, HistoryEntryNumber)
    ensures n in NewEntries(lines, last) ==> n < 100000
  {
    NewerEntriesComplete(lines, last, n, HistoryEntryNumber);
    if n in NewEntries(lines, last) {
      var i :| 0 <= i < |lines| && HistoryEntryNumber(lines[i]) == Some(n);
    }
  }

  /** The listing loop: match each stripped line, keep the entry numbers newer than `last`. */
  method ScanHistory(lines: seq<string>, last: int) returns (entries: seq<nat>)
    ensures entries == NewEntries(lines, last)
  {
    entries := [];
    var i := 0;
    while i < |lines|
      invariant 0 <= i <= |lines|
      invariant entries == NewEntries(lines[..i], last)
    {
      var m := HistoryEntryNumber(lines[i]);
      NewerEntriesStep(lines, i, last, HistoryEntryNumber);
      if m.Some? && m.value > last {
        entries := entries + [m.value];
      }
      i := i + 1;
    }
    assert lines[..i] == lines;
  }

  /** The largest of a non-empty batch, as Python's max(). */
  function MaxOf(s: seq<nat>): (m: nat)
    requires s != []
    ensures m in s && forall i :: 0 <= i < |s| ==> s[i] <= m
  {
    if |s| == 1 then s[0]
    else
      var m := MaxOf(s[1..]);
      assert s[1..][0] in s;
      if s[0] >= m then s[0] else m
  }

  // ---------------------------------------------------------------- entry header

  /**
   * A matched entry header: the direction, the address, and what `int()` makes of the
   * epoch's digits, None where it raises ValueError (more than MaxStrDigits digits).
   */
  datatype EntryHeader = EntryHeader(direction: Direction, addr: string, epoch: Option<nat>)

  /** `(Received|Sent|Transmitted)\s+`: the direction word and the text after its whitespace. */
  function DirectionWord(s: string): Option<(Direction, string)> {
    if StartsWith(s, "Received") && Token(s[8..], IsSpace).Some? then Some((Received, Token(s[8..], IsSpace).value.1))
    else if StartsWith(s, "Sent") && Token(s[4..], IsSpace).Some? then Some((Sent, Token(s[4..], IsSpace).value.1))
    else if StartsWith(s, "Transmitted") && Token(s[11..], IsSpace).Some? then Some((Sent, Token(s[11..], IsSpace).value.1))
    else None
  }

  /** `(?:from|to)\s+`: the text after the preposition's whitespace. */
  function Preposition(s: string): Option<string> {
    if StartsWith(s, "from") && Token(s[4..], IsSpace).Some? then Some(Token(s[4..], IsSpace).value.1)
    else if StartsWith(s, "to") && Token(s[2..], IsSpace).Some? then Some(Token(s[2..], IsSpace).value.1)
    else None
  }

  /**
   * The entry header pattern
   * `<---\s+History Entry \d+\s+(Received|Sent|Transmitted)\s+(?:from|to)\s+(\S+)\s+at\s+(\d+)\s+--->`
   * matched at the start of s (anything may follow it), in four stages.
   */
  function MatchEntryHeader(s: string): (r: Option<EntryHeader>)
    ensures r.Some? ==> StartsWith(s, "<---") && IsWord(r.value.addr)
  {
    match EntryPrefix(s)
    case None => None
    case Some(r5) =>
      match DirectionWord(r5)
      case None => None
      case Some((dir, r6)) =>
        match EntryAddress(r6)
        case None => None
        case Some((addr, r11)) =>
          match EntryEpoch(r11)
          case None => None
          case Some(digits) => Some(EntryHeader(dir, addr, EpochValue(digits)))
  }

  /** `<---\s+History Entry \d+\s+` */
  function EntryPrefix(s: string): (r: Option<string>)
    ensures r.Some? ==> StartsWith(s, "<---")
  {
    match Literal(s, "<---")
    case None => None
    case Some(r1) =>
      match Token(r1, IsSpace)
      case None => None
      case Some((_, r2)) =>
        match Literal(r2, "History Entry ")
        case None => None
        case Some(r3) =>
          match Token(r3, IsDigit)
          case None => None
          case Some((_, r4)) =>
            match Token(r4, IsSpace)
            case None => None
            case Some((_, r5)) => Some(r5)
  }

  /** `(?:from|to)\s+(\S+)\s+at\s+`: the address and the text after the last whitespace. */
  function EntryAddress(s: string): (r: Option<(string, string)>)
    ensures r.Some? ==> IsWord(r.value.0)
  {
    match Preposition(s)
    case None => None
    case Some(r7) =>
      match Token(r7, NotSpace)
      case None => None
      case Some((addr, r8)) =>
        match Token(r8, IsSpace)
        case None => None
        case Some((_, r9)) =>
          match Literal(r9, "at")
          case None => None
          case Some(r10) =>
            match Token(r10, IsSpace)
            case None => None
            case Some((_, r11)) =>
              assert Span(r7, NotSpace).0 == addr;
              Some((addr, r11))
  }

  /** `(\d+)\s+--->`: the epoch's digits. */
  function EntryEpoch(s: string): (r: Option<string>)
    ensures r.Some? ==> r.value != [] && AllDigits(r.value)
  {
    match Token(s, IsDigit)
    case None => None
    case Some((digits, r12)) =>
      match Token(r12, IsSpace)
      case None => None
      case Some((_, r13)) =>
        if StartsWith(r13, "--->") then
          assert Span(s, IsDigit).0 == digits;
          Some(digits)
        else None
  }

  /** `int()` of the epoch's digit run: its value, None where int() raises for too many digits. */
  function EpochValue(digits: string): (r: Option<nat>)
    requires digits != [] && AllDigits(digits)
    ensures r.Some? <==> PyInt(digits).Some?
    ensures r.Some? ==> PyInt(digits) == Some(r.value as int)
  {
    if |digits| <= MaxStrDigits then Some(DecimalValue(digits)) else None
  }

  function DirectionName(d: Direction): string {
    match d
    case Received => "Received"
    case Sent => "Sent"
  }

  function PrepositionFor(d: Direction): string {
    match d
    case Received => "from"
    case Sent => "to"
  }

  /** The header line Asterisk prints above an entry dump. */
  function EntryHeaderLine(n: nat, d: Direction, addr: string, epoch: nat): string {
    "<---" + (" " + ("History Entry " + (NatToString(n) + (" " + (DirectionName(d) + (" " + (PrepositionFor(d)
      + (" " + (addr + (" " + ("at" + (" " + (NatToString(epoch) + (" " + "--->"))))))))))))))
  }

  lemma {:induction false} AllDigitsNotSpace(s: string)
    requires AllDigits(s) && s != []
    ensures !IsSpace(s[0])
  {
  }

  lemma {:induction false} DirectionWordOf(d: Direction, rest: string)
    requires rest != [] && !IsSpace(rest[0])
    ensures DirectionWord(DirectionName(d) + (" " + rest)) == Some((d, rest))
  {
    var w := DirectionName(d);
    var s := w + (" " + rest);
    assert s[|w|..] == " " + rest;
    TokenOf(" ", rest, IsSpace);
    LiteralOf(w, " " + rest);
  }

  lemma {:induction false} PrepositionOf(d: Direction, rest: string)
    requires rest != [] && !IsSpace(rest[0])
    ensures Preposition(PrepositionFor(d) + (" " + rest)) == Some(rest)
  {
    var w := PrepositionFor(d);
    var s := w + (" " + rest);
    assert s[|w|..] == " " + rest;
    TokenOf(" ", rest, IsSpace);
    LiteralOf(w, " " + rest);
  }

  lemma {:induction false} EntryPrefixOf(n: nat, rest: string)
    requires rest != [] && !IsSpace(rest[0])
    ensures EntryPrefix("<---" + (" " + ("History Entry " + (NatToString(n) + (" " + rest))))) == Some(rest)
  {
    var en := NatToString(n);
    var r4 := " " + rest;
    var r3 := en + r4;
    var r2 := "History Entry " + r3;
    var r1 := " " + r2;
    LiteralOf("<---", r1);
    TokenOf(" ", r2, IsSpace);
    LiteralOf("History Entry ", r3);
    TokenOf(en, r4, IsDigit);
    TokenOf(" ", rest, IsSpace);
  }

  lemma {:induction false} EntryAddressOf(d: Direction, addr: string, rest: string)
    requires IsWord(addr)
    requires rest != [] && !IsSpace(rest[0])
    ensures var r := EntryAddress(PrepositionFor(d) + (" " + (addr + (" " + ("at" + (" " + rest))))));
      r.Some? && r.value.0 == addr && r.value.1 == rest
  {
    var r10 := " " + rest;
    var r9 := "at" + r10;
    var r8 := " " + r9;
    var r7 := addr + r8;
    LeadsWithWord(addr, r8);
    PrepositionOf(d, r7);
    WordToken(addr, r8);
    TokenOf(" ", r9, IsSpace);
    LiteralOf("at", r10);
    TokenOf(" ", rest, IsSpace);
    EntryAddressSteps(PrepositionFor(d) + (" " + r7), r7, addr, r8, r9, r10, rest);
  }

  /** A word followed by a space is one non-space token. */
  lemma {:induction false} WordToken(w: string, rest: string)
    requires IsWord(w) && rest != [] && IsSpace(rest[0])
    ensures Token(w + rest, NotSpace) == Some((w, rest))
  {
    TokenOf(w, rest, NotSpace);
  }

  /** The address piece matches once each of its tokens matches in turn. */
  lemma {:induction false} EntryAddressSteps(s: string, r7: string, addr: string, r8: string, r9: string, r10: string, rest: string)
    requires Preposition(s) == Some(r7)
    requires Token(r7, NotSpace) == Some((addr, r8))
    requires Token(r8, IsSpace) == Some((" ", r9))
    requires Literal(r9, "at") == Some(r10)
    requires Token(r10, IsSpace) == Some((" ", rest))
    ensures EntryAddress(s).Some? && EntryAddress(s).value.0 == addr && EntryAddress(s).value.1 == rest
  {
  }

  lemma {:induction false} EntryEpochOf(epoch: nat)
    ensures EntryEpoch(NatToString(epoch) + (" " + "--->")) == Some(NatToString(epoch))
  {
    var ep := NatToString(epoch);
    TokenOf(ep, " " + "--->", IsDigit);
    TokenOf(" ", "--->", IsSpace);
  }

  /** The header line of every entry dump is read back to its direction, address and epoch. */
  lemma {:induction false} EntryHeaderRoundTrip(n: nat, d: Direction, addr: string, epoch: nat)
    requires IsWord(addr)
    ensures MatchEntryHeader(EntryHeaderLine(n, d, addr, epoch))
            == Some(EntryHeader(d, addr, if |NatToString(epoch)| <= MaxStrDigits then Some(epoch) else None))
  {
    var ep := NatToString(epoch);
    var r11 := ep + (" " + "--->");
    var r6 := PrepositionFor(d) + (" " + (addr + (" " + ("at" + (" " + r11)))));
    var r5 := DirectionName(d) + (" " + r6);
    AllDigitsNotSpace(ep);
    LeadsWithWord(ep, " " + "--->");
    LeadsWithWord(PrepositionFor(d), " " + (addr + (" " + ("at" + (" " + r11)))));
    LeadsWithWord(DirectionName(d), " " + r6);
    EntryPrefixOf(n, r5);
    DirectionWordOf(d, r6);
    EntryAddressOf(d, addr, r11);
    EntryEpochOf(epoch);
    DecimalOfNatToString(epoch);
    MatchEntryHeaderSteps(EntryHeaderLine(n, d, addr, epoch), r5, d, r6, addr, r11, ep);
  }

  /** An epoch that fits time_t has far fewer digits than int() accepts, so its header reads back exactly. */
  lemma {:induction false} TimeTEpochReadBack(n: nat, d: Direction, addr: string, epoch: nat)
    requires IsWord(addr) && epoch < TimeTLimit
    ensures MatchEntryHeader(EntryHeaderLine(n, d, addr, epoch)) == Some(EntryHeader(d, addr, Some(epoch)))
  {
    assert Pow10(10) == 10_000_000_000 && Pow10(9) == 1_000_000_000;
    Pow10Add(10, 9);
    NatToStringFits(epoch, 19);
    EntryHeaderRoundTrip(n, d, addr, epoch);
  }

  lemma {:induction false} LeadsWithWord(w: string, rest: string)
    requires w != [] && !IsSpace(w[0])
    ensures w + rest != [] && !IsSpace((w + rest)[0])
  {
  }

  /** The pattern matches once each of its four pieces matches in turn. */
  lemma {:induction false} MatchEntryHeaderSteps(s: string, r5: string, d: Direction, r6: string, addr: string, r11: string, digits: string)
    requires EntryPrefix(s) == Some(r5)
    requires DirectionWord(r5) == Some((d, r6))
    requires EntryAddress(r6).Some? && EntryAddress(r6).value.0 == addr && EntryAddress(r6).value.1 == r11
    requires EntryEpoch(r11) == Some(digits)
    ensures MatchEntryHeader(s) == Some(EntryHeader(d, addr, EpochValue(digits)))
  {
  }

  /** An entry header and the index of the line it was found on. */
  datatype HeaderAt = HeaderAt(index: nat, header: EntryHeader)

  /** The header a dump line carries, if its stripped text matches the pattern. */
  function EntryHeaderOf(line: string): Option<EntryHeader> {
    MatchEntryHeader(Strip(line))
  }

  /** The first line (from index `from` on) for which `header` finds something, with what it found. */
  function FirstHeaderBy(lines: seq<string>, from: nat, header: string -> Option<EntryHeader>): (r: Option<HeaderAt>)
    requires from <= |lines|
    ensures r.Some? ==> from <= r.value.index < |lines| && header(lines[r.value.index]) == Some(r.value.header)
    ensures r.Some? ==> forall j :: from <= j < r.value.index ==> header(lines[j]).None?
    ensures r.None? ==> forall j :: from <= j < |lines| ==> header(lines[j]).None?
    decreases |lines| - from
  {
    if from == |lines| then None
    else
      match header(lines[from])
      case Some(h) => Some(HeaderAt(from, h))
      case None => FirstHeaderBy(lines, from + 1, header)
  }

  /** The first line of an entry dump that is an entry header line. */
  function FirstEntryHeader(lines: seq<string>): Option<HeaderAt> {
    FirstHeaderBy(lines, 0, EntryHeaderOf)
  }

  lemma {:induction false} FirstHeaderBySkip(lines: seq<string>, i: nat, header: string -> Option<EntryHeader>)
    requires i < |lines| && header(lines[i]).None?
    ensures FirstHeaderBy(lines, i, header) == FirstHeaderBy(lines, i + 1, header)
  {
  }

  /** The header search loop of the entry fetch, stopping at the first matching line. */
  method FindEntryHeader(lines: seq<string>) returns (found: Option<HeaderAt>)
    ensures found == FirstEntryHeader(lines)
  {
    var i := 0;
    while i < |lines|
      invariant 0 <= i <= |lines|
      invariant FirstEntryHeader(lines) == FirstHeaderBy(lines, i, EntryHeaderOf)
    {
      var m := MatchEntryHeader(Strip(lines[i]));
      if m.Some? {
        return Some(HeaderAt(i, m.value));
      }
      FirstHeaderBySkip(lines, i, EntryHeaderOf);
      i := i + 1;
    }
    return None;
  }

  // ---------------------------------------------------------------- timestamps

  /** The last second datetime can represent: 9999-12-31 23:59:59 UTC. */
  const MaxDatetimeEpoch: nat := 253402300799

  /** Epochs at or above this do not fit the platform's 64-bit time_t. */
  const TimeTLimit: nat := 0x8000_0000_0000_0000

  /**
   * The timestamp of an entry: its epoch if datetime can represent it, `now`
   * when `int()` or the conversion raises one of the errors the source catches, and
   * None (the entry is skipped) when it raises the overflow error it does not.
   */
  function EntryTimestamp(epoch: Option<nat>, now: int): (r: Option<int>)
    ensures epoch.None? ==> r == Some(now)
    ensures epoch.Some? && epoch.value <= MaxDatetimeEpoch ==> r == Some(epoch.value)
    ensures epoch.Some? && MaxDatetimeEpoch < epoch.value < TimeTLimit ==> r == Some(now)
    ensures r.None? <==> epoch.Some? && epoch.value >= TimeTLimit
  {
    match epoch
    case None => Some(now)
    case Some(e) =>
      if e <= MaxDatetimeEpoch then Some(e)
      else if e < TimeTLimit then Some(now)
      else None
  }

  // ---------------------------------------------------------------- SIP start line

  datatype StartLine = StartLine(sipMethod: string, statusCode: int)

  /** The first line of a message, stripped. */
  function FirstLine(raw: string): (r: string)
    ensures '\n' !in r
  {
    var line := Span(raw, NotNewline).0;
    var r := Strip(line);
    assert forall k :: 0 <= k < |r| ==> r[k] == line[StripStart(line) + k];
    r
  }

  /**
   * Method and status of a SIP message from its stripped first line: a
   * response ("SIP/...") has method "" and the status its second
   * whitespace-separated word parses to (0 when it has none or it is not an
   * integer); a request has status 0 and its first word as the method.
   */
  function ClassifyStartLine(raw: string): (r: StartLine)
    ensures r.sipMethod == "" || r.statusCode == 0
    ensures r.sipMethod != "" ==> IsWord(r.sipMethod)
  {
    Classify(FirstLine(raw))
  }

  function Classify(first: string): (r: StartLine)
    ensures r.sipMethod == "" || r.statusCode == 0
    ensures r.sipMethod != "" ==> IsWord(r.sipMethod)
  {
    if StartsWith(first, "SIP/") then
      var afterVersion := Span(first, NotSpace).1;
      var second := Span(afterVersion, IsSpace).1;
      if second == [] then StartLine("", 0)
      else StartLine("", PyInt(Span(second, NotSpace).0).GetOr(0))
    else
      StartLine(Span(first, NotSpace).0, 0)
  }

  /** The first line ends at the CRLF, which is stripped off. */
  lemma {:induction false} FirstLineOf(line: string, rest: string)
    requires line != [] && IsStripped(line) && '\n' !in line
    ensures FirstLine(line + ("\r\n" + rest)) == line
  {
    assert line + ("\r\n" + rest) == (line + "\r") + ("\n" + rest);
    assert forall k :: 0 <= k < |line + "\r"| ==> NotNewline((line + "\r")[k]) by {
      forall k | 0 <= k < |line + "\r"| ensures NotNewline((line + "\r")[k]) {
        if k < |line| {
          assert (line + "\r")[k] == line[k];
        }
      }
    }
    SpanOf(line + "\r", "\n" + rest, NotNewline);
    StripPadded(line, "\r");
  }

  /** A word holds no whitespace, so no line break. */
  lemma {:induction false} NoNewlineInWord(w: string)
    requires IsWord(w)
    ensures '\n' !in w
  {
    forall k | 0 <= k < |w| ensures w[k] != '\n' {
      assert !IsSpace(w[k]);
    }
  }

  /** A status line yields its status code and no method. */
  lemma {:induction false} StatusLineCode(version: string, code: nat, reason: string, rest: string)
    requires IsWord(version) && StartsWith(version, "SIP/")
    requires reason != [] && IsStripped(reason) && '\n' !in reason
    ensures ClassifyStartLine(version + (" " + (NatToString(code) + (" " + (reason + ("\r\n" + rest))))))
            == StartLine("", if |NatToString(code)| <= MaxStrDigits then code else 0)
  {
    var c := NatToString(code);
    var line := version + (" " + (c + (" " + reason)));
    assert version + (" " + (c + (" " + (reason + ("\r\n" + rest))))) == line + ("\r\n" + rest);
    assert line[0] == version[0] && line[|line| - 1] == reason[|reason| - 1];
    NoNewlineInWord(version);
    DigitsExclude(c, '\n');
    FirstLineOf(line, rest);
    StatusLineClassify(version, code, reason);
  }

  lemma {:induction false} StatusLineClassify(version: string, code: nat, reason: string)
    requires IsWord(version) && StartsWith(version, "SIP/")
    requires reason != [] && !IsSpace(reason[0])
    ensures Classify(version + (" " + (NatToString(code) + (" " + reason))))
            == StartLine("", if |NatToString(code)| <= MaxStrDigits then code else 0)
  {
    var c := NatToString(code);
    var line := version + (" " + (c + (" " + reason)));
    assert line[..4] == version[..4];
    SpanOf(version, " " + (c + (" " + reason)), NotSpace);
    AllDigitsNotSpace(c);
    SpanOf(" ", c + (" " + reason), IsSpace);
    SpanOf(c, " " + reason, NotSpace);
    DecimalOfNatToString(code);
  }

  /** A request line yields its method and status 0. */
  lemma {:induction false} RequestLineMethod(verb: string, uri: string, rest: string)
    requires IsWord(verb) && !StartsWith(verb, "SIP/")
    requires IsWord(uri)
    ensures ClassifyStartLine(verb + (" " + (uri + (" SIP/2.0" + ("\r\n" + rest))))) == StartLine(verb, 0)
  {
    var line := verb + (" " + (uri + " SIP/2.0"));
    assert verb + (" " + (uri + (" SIP/2.0" + ("\r\n" + rest)))) == line + ("\r\n" + rest);
    assert line[0] == verb[0] && line[|line| - 1] == '0';
    NoNewlineInWord(verb);
    NoNewlineInWord(uri);
    FirstLineOf(line, rest);
    RequestLineClassify(verb, " " + (uri + " SIP/2.0"));
  }

  lemma {:induction false} RequestLineClassify(verb: string, tail: string)
    requires IsWord(verb) && !StartsWith(verb, "SIP/")
    requires tail != [] && tail[0] == ' '
    ensures Classify(verb + tail) == StartLine(verb, 0)
  {
    var line := verb + tail;
    assert !StartsWith(line, "SIP/") by {
      if |verb| >= 4 {
        assert line[..4] == verb[..4];
      } else {
        assert line[|verb|] == ' ';
      }
    }
    SpanOf(verb, tail, NotSpace);
  }

  // ---------------------------------------------------------------- headers

  /** The text starts with the lower-case name, compared case-insensitively for ASCII. */
  predicate StartsWithName(s: string, name: string) {
    |name| <= |s| && Lower(s[..|name|]) == name
  }

  /** The text after the name on the first line of s that starts with it. */
  function HeaderAfter(s: string, name: string): (r: Option<string>)
    decreases |s|
  {
    if StartsWithName(s, name) then Some(s[|name|..])
    else
      var rest := Span(s, NotNewline).1;
      if rest == [] then None else HeaderAfter(rest[1..], name)
  }

  /**
   * A header pattern `^Name:\s*(.+)` searched case-insensitively line by
   * line, its group stripped, "" when there is none. The value starts at the
   * first non-blank character after the colon, which may be on a later line,
   * and ends at that line's end. When only whitespace follows the colon the
   * match either fails or captures whitespace; both give "".
   */
  function HeaderValue(raw: string, name: string): (r: string)
    ensures IsStripped(r) && '\n' !in r
  {
    match HeaderAfter(raw, name)
    case None => ""
    case Some(after) =>
      var v := Span(after, IsSpace).1;
      if v == [] then ""
      else
        var line := Span(v, NotNewline).0;
        StripExcludes(line, '\n');
        Strip(line)
  }

  /** A header on the first line is read as its value, without the CRLF. */
  lemma {:induction false} HeaderValueFirstLine(h: string, name: string, value: string, rest: string)
    requires Lower(h) == name
    requires value != [] && IsStripped(value) && '\n' !in value
    ensures HeaderValue(h + (" " + (value + ("\r\n" + rest))), name) == value
  {
    var raw := h + (" " + (value + ("\r\n" + rest)));
    var after := " " + (value + ("\r\n" + rest));
    assert raw[..|name|] == h && raw[|name|..] == after;
    assert HeaderAfter(raw, name) == Some(after);
    HeaderValueAfter(value, rest);
  }

  /** After the name: the blanks go, and the value is the rest of the line without the CR. */
  lemma {:induction false} HeaderValueAfter(value: string, rest: string)
    requires value != [] && IsStripped(value) && '\n' !in value
    ensures var v := Span(" " + (value + ("\r\n" + rest)), IsSpace).1;
      v != [] && Strip(Span(v, NotNewline).0) == value
  {
    SpanOf(" ", value + ("\r\n" + rest), IsSpace);
    var v := value + ("\r\n" + rest);
    assert v == (value + "\r") + ("\n" + rest);
    SpanOf(value + "\r", "\n" + rest, NotNewline);
    StripPadded(value, "\r");
  }

  /** A line that does not start with the header is skipped. */
  lemma {:induction false} HeaderAfterSkipsLine(line: string, name: string, rest: string)
    requires '\n' !in line
    requires !StartsWithName(line + ("\n" + rest), name)
    ensures HeaderAfter(line + ("\n" + rest), name) == HeaderAfter(rest, name)
  {
    SpanOf(line, "\n" + rest, NotNewline);
    assert ("\n" + rest)[1..] == rest;
  }

  // ---------------------------------------------------------------- one entry

  /** Where an entry dump came from and its SIP text. */
  datatype Located = Located(direction: Direction, addr: string, timestamp: int, rawText: string)

  /**
   * The header search of an entry dump: without a header line the whole
   * output is the message, received now from an unknown address; with one,
   * the message is the stripped text of the lines after it.
   */
  function Locate(output: string, now: int): (r: Option<Located>)
    ensures FirstEntryHeader(Split(Strip(output), '\n')).None? ==> r == Some(Located(Received, "", now, output))
  {
    var lines := Split(Strip(output), '\n');
    match FirstEntryHeader(lines)
    case None => Some(Located(Received, "", now, output))
    case Some(at) => LocateAfter(lines, at.index, at.header, now)
  }

  /** The dump has its header on line i: the timestamp it carries and the stripped text after it. */
  function LocateAfter(lines: seq<string>, i: nat, h: EntryHeader, now: int): (r: Option<Located>)
    requires i < |lines|
    ensures r.None? <==> h.epoch.Some? && h.epoch.value >= TimeTLimit
    ensures r.Some? ==> r.value.direction == h.direction && r.value.addr == h.addr
  {
    match EntryTimestamp(h.epoch, now)
    case None => None
    case Some(ts) => Some(Located(h.direction, h.addr, ts, Strip(Join(lines[i + 1..], '\n'))))
  }

  /** The message an entry dump yields; None when it is skipped (no text, no Call-ID). */
  function ParseDetail(output: string, now: int): (r: Option<SipMessage>)
    ensures r.Some? ==> output != "" && r.value.rawText != "" && r.value.callId != ""
    ensures r.Some? ==> r.value.callId == HeaderValue(r.value.rawText, "call-id:")
  {
    if output == "" then None
    else
      match Locate(output, now)
      case None => None
      case Some(loc) => MessageFrom(loc.rawText, loc.timestamp, loc.direction, loc.addr)
  }

  /**
   * The message built from located SIP text: its start line read for method
   * and status, its headers looked up; None when the text is empty or has no
   * Call-ID.
   */
  function MessageFrom(raw: string, timestamp: int, direction: Direction, addr: string): (r: Option<SipMessage>)
    ensures r.Some? <==> raw != "" && HeaderValue(raw, "call-id:") != ""
    ensures r.Some? ==> (r.value.rawText == raw && r.value.timestamp == timestamp
                          && r.value.direction == direction && r.value.addr == addr)
    ensures r.Some? ==> (r.value.callId == HeaderValue(raw, "call-id:")
                          && r.value.fromHeader == HeaderValue(raw, "from:") && r.value.toHeader == HeaderValue(raw, "to:"))
  {
    if raw == "" then None
    else
      var start := ClassifyStartLine(raw);
      var callId := HeaderValue(raw, "call-id:");
      if callId == "" then None
      else
        Some(SipMessage(
          timestamp, direction, start.sipMethod, start.statusCode, callId,
          HeaderValue(raw, "from:"), HeaderValue(raw, "to:"), HeaderValue(raw, "cseq:"), raw, addr))
  }

  /** Output without any entry header line is kept whole as the message text, received now. */
  lemma {:induction false} ParseDetailWithoutHeader(output: string, now: int)
    requires output != ""
    requires FirstEntryHeader(Split(Strip(output), '\n')).None?
    requires HeaderValue(output, "call-id:") != ""
    ensures var r := ParseDetail(output, now);
      && r.Some? && r.value.rawText == output && r.value.timestamp == now
      && r.value.direction == Received && r.value.addr == ""
  {
    var loc := Located(Received, "", now, output);
    assert Locate(output, now) == Some(loc);
    ParseDetailVia(output, now, loc);
  }

  lemma {:induction false} ParseDetailVia(output: string, now: int, loc: Located)
    requires output != "" && Locate(output, now) == Some(loc)
    ensures ParseDetail(output, now) == MessageFrom(loc.rawText, loc.timestamp, loc.direction, loc.addr)
  {
  }

  /** The header search of the entry fetch: the first header line, then its timestamp. */
  method LocateEntry(output: string, now: int) returns (loc: Option<Located>)
    ensures loc == Locate(output, now)
  {
    var lines := Split(Strip(output), '\n');
    var found := FindEntryHeader(lines);
    if found.None? {
      loc := Some(Located(Received, "", now, output));
    } else {
      loc := ReadAfterHeader(lines, found.value.index, found.value.header, now);
    }
  }

  /** The timestamp conversion and the text after the header line. */
  method ReadAfterHeader(lines: seq<string>, i: nat, h: EntryHeader, now: int) returns (loc: Option<Located>)
    requires i < |lines|
    ensures loc == LocateAfter(lines, i, h, now)
  {
    var ts := EntryTimestamp(h.epoch, now);
    if ts.None? {
      loc := None;
    } else {
      loc := Some(Located(h.direction, h.addr, ts.value, Strip(Join(lines[i + 1..], '\n'))));
    }
  }

  /** The entry fetch up to the point where the message is stored; None where it returns early. */
  method ParseEntry(output: string, now: int) returns (msg: Option<SipMessage>)
    ensures msg == ParseDetail(output, now)
  {
    if output == "" {
      return None;
    }
    var loc := LocateEntry(output, now);
    if loc.None? {
      return None;
    }
    msg := BuildMessage(loc.value.rawText, loc.value.timestamp, loc.value.direction, loc.value.addr);
  }

  /** The part of the entry fetch after the header search: parse the text, give up without a Call-ID. */
  method BuildMessage(raw: string, timestamp: int, direction: Direction, addr: string) returns (msg: Option<SipMessage>)
    ensures msg == MessageFrom(raw, timestamp, direction, addr)
  {
    if raw == "" {
      return None;
    }
    var start := ClassifyStartLine(raw);
    var callId := HeaderValue(raw, "call-id:");
    if callId == "" {
      return None;
    }
    return Some(SipMessage(
      timestamp, direction, start.sipMethod, start.statusCode, callId,
      HeaderValue(raw, "from:"), HeaderValue(raw, "to:"), HeaderValue(raw, "cseq:"), raw, addr));
  }
}
