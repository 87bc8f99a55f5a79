/** The health report: the rows the firmware prints and the runner's reading of them. */
module HealthText {
  import opened Base
  import opened StatusCodes
  import opened DriverSpec
  import opened DriverProofs
  import opened Numerals
  import opened Whitespace

  // ---- texts -----------------------------------------------------------------------------

  function YesNo(b: bool): string {
    if b then "yes" else "no"
  }

  function StateName(s: DriverState): string {
    match s
    case Uninit => "UNINIT"
    case Ready => "READY"
    case Degraded => "DEGRADED"
    case Offline => "OFFLINE"
  }

  function ProvenanceName(p: Provenance): string {
    match p
    case Unknown => "UNKNOWN"
    case WriteCompleted => "WRITE_COMPLETED"
    case ReadbackObserved => "READBACK_OBSERVED"
  }

  function ErrorName(e: Err): string {
    match e
    case Ok => "OK"
    case NotInitialized => "NOT_INITIALIZED"
    case InvalidConfig => "INVALID_CONFIG"
    case I2cError => "I2C_ERROR"
    case Timeout => "TIMEOUT"
    case InvalidParam => "INVALID_PARAM"
    case DeviceNotFound => "DEVICE_NOT_FOUND"
    case Unsupported => "UNSUPPORTED"
    case I2cNackAddr => "I2C_NACK_ADDR"
    case I2cNackData => "I2C_NACK_DATA"
    case I2cTimeout => "I2C_TIMEOUT"
    case I2cBus => "I2C_BUS"
    case Busy => "BUSY"
    case InProgress => "IN_PROGRESS"
    case ResetStateMismatch => "RESET_STATE_MISMATCH"
    case ResetError => "RESET_ERROR"
  }

  // ---- the firmware's printer --------------------------------------------------------------

  /** %ld */
  function Signed(n: int): string {
    if n < 0 then "-" + Decimal(-n) else Decimal(n)
  }

  /** %02X */
  function HexByte(b: Byte): string {
    [DigitChar(b / 16, true), DigitChar(b % 16, true)]
  }

  /** The set bits among the `n` lowest, in ascending order. */
  function Channels(mask: Byte, n: nat): seq<nat>
    requires n <= 8
  {
    if n == 0 then [] else Channels(mask, n - 1) + if Bit(mask, n - 1) then [n - 1] else []
  }

  /** `",".join(str(c) for c in channels) or "none"` */
  function Join(channels: seq<nat>): string {
    if channels == [] then ""
    else
      var (before, c) := (Join(channels[..|channels| - 1]), Decimal(channels[|channels| - 1]));
      if |channels| == 1 then c else before + "," + c
  }

  function ChannelList(mask: Byte): string {
    if Channels(mask, 8) == [] then "none" else Join(Channels(mask, 8))
  }

  function MaskText(mask: Byte): string {
    "0x" + HexByte(mask) + " [" + ChannelList(mask) + "]"
  }

  /** printMask: one pass over the channels with a first-item flag. */
  method PrintMask(mask: Byte) returns (text: string)
    ensures text == MaskText(mask)
  {
    text := "0x" + HexByte(mask) + " [";
    var first := true;
    ghost var opening := text;
    for channel := 0 to 8
      invariant text == opening + Join(Channels(mask, channel))
      invariant first <==> Channels(mask, channel) == []
    {
      ghost var before, after := Channels(mask, channel), Channels(mask, channel + 1);
      if Bit(mask, channel) {
        assert after[..|after| - 1] == before && after[|after| - 1] == channel;
        assert opening + Join(after) == opening + Join(before) + (if first then "" else ",") + Decimal(channel);
        text := text + (if first then "" else ",") + Decimal(channel);
        first := false;
      } else {
        assert after == before;
      }
    }
    if first {
      text := text + "none";
    }
    text := text + "]";
  }

  /** What follows the name of an error; `text` is its message. */
  function DetailText(detail: i32, text: string): string {
    " (detail=" + (Signed(detail) + (", " + text + ")"))
  }

  function ErrorText(st: Status, text: string): string {
    ErrorName(st.code) + if st.IsOk() then "" else DetailText(st.detail, text)
  }

  function ErrorRow(st: Status, text: string): string {
    "Last error: " + ErrorText(st, text)
  }

  function ObservationRow(o: Observation): string {
    "Mask cache: " + (ProvenanceName(o.provenance) + (" known=" + (YesNo(o.Known())
    + (" verified=" + (YesNo(o.Verified()) + (" value=" + MaskText(o.mask)))))))
  }

  function StateRow(s: DriverState): string {
    "State: " + StateName(s) + " (passive; never gates I2C)"
  }

  function PairRow(title: string, a: u32, b: u32): string {
    title + Decimal(a) + "/" + Decimal(b)
  }

  predicate Online(d: Dev) {
    d.initialized && !d.state.Offline?
  }

  /** The rows whose contents a healthy driver fixes. */
  function SteadyRows(state: DriverState, bound: bool, initialized: bool, online: bool, streak: nat): (rows: seq<string>)
    ensures |rows| == 7
  {
    ["=== Driver Health ===",
     StateRow(state),
     "State alias parity: " + YesNo(true),
     "Bound: " + YesNo(bound),
     "Initialized: " + YesNo(initialized),
     "Online: " + YesNo(online),
     "Consecutive failures: " + Decimal(streak)]
  }

  /** The rows that carry values. */
  function FieldRows(d: Dev, text: string): (rows: seq<string>)
    ensures |rows| == 4
  {
    [PairRow("Total success/failure: ", d.totalSuccess, d.totalFailures),
     PairRow("Last OK/error ms: ", d.lastOkMs, d.lastErrorMs),
     ErrorRow(d.lastError, text),
     ObservationRow(d.obs)]
  }

  /** The rows of printHealth, without their indentation. The messages are worded by `wording`, each
      on one line. */
  function HealthRows(d: Dev, wording: Message -> string): seq<string> {
    SteadyRows(d.state, d.bound, d.initialized, Online(d), d.consecutiveFailures)
    + FieldRows(d, wording(d.lastError.msg))
  }

  function Indented(rows: seq<string>): (lines: seq<string>)
    ensures |lines| == |rows|
  {
    if rows == [] then [] else Indented(rows[..|rows| - 1]) + ["  " + rows[|rows| - 1]]
  }

  /** The lines of printHealth: the title and the cache row stand at the margin. */
  function HealthLines(d: Dev, wording: Message -> string): seq<string> {
    LaidOut(HealthRows(d, wording))
  }

  function LaidOut(rows: seq<string>): seq<string>
    requires |rows| == 11
  {
    [rows[0]] + Indented(rows[1..10]) + [rows[10]]
  }

  // ---- the runner's reader -------------------------------------------------------------------

  /** What the seven rows without values must read. */
  const HEALTHY_ROWS: seq<string> := [
    "=== Driver Health ===", "State: READY (passive; never gates I2C)", "State alias parity: yes", "Bound: yes",
    "Initialized: yes", "Online: yes", "Consecutive failures: 0"]

  const TOTALS_LABEL := "Total success/failure: "
  const TIMES_LABEL := "Last OK/error ms: "
  const ERROR_LABEL := "Last error: "
  const DETAIL_LABEL := " (detail="
  const CACHE_LABEL := "Mask cache: "
  const KNOWN_LABEL := " known="
  const VERIFIED_LABEL := " verified="
  const VALUE_LABEL := " value=0x"

  datatype Counters = Counters(successes: nat, failures: nat, lastOkMs: nat, lastErrorMs: nat)

  function After(s: string, prefix: string): Option<string> {
    if prefix <= s then Some(s[|prefix|..]) else None
  }

  /** Length of the longest prefix of characters satisfying `p`. */
  function Span(s: string, p: char -> bool): (n: nat)
    ensures n <= |s|
  {
    if s == "" || !p(s[0]) then 0 else 1 + Span(s[1..], p)
  }

  predicate Decimals(c: char) {
    '0' <= c <= '9'
  }

  predicate NameChar(c: char) {
    'A' <= c <= 'Z' || '0' <= c <= '9' || c == '_'
  }

  /** [0-9]{1,10} followed by the rest of the text. */
  function ReadNumber(s: string): Option<(nat, string)> {
    var n := Span(s, Decimals);
    if 1 <= n <= 10 then Some((Value(s[..n], 10), s[n..])) else None
  }

  /** label, number, '/', number, end. */
  function ReadPair(row: string, title: string): Option<(nat, nat)> {
    match After(row, title)
    case None => None
    case Some(s) =>
      match ReadNumber(s)
      case None => None
      case Some(a) =>
        match After(a.1, "/")
        case None => None
        case Some(t) =>
          match ReadNumber(t)
          case None => None
          case Some(b) => if b.1 == "" then Some((a.0, b.0)) else None
  }

  function ReadSigned(s: string): Option<(int, string)> {
    match After(s, "-")
    case None => (match ReadNumber(s) case None => None case Some(n) => Some((n.0, n.1)))
    case Some(t) => (match ReadNumber(t) case None => None case Some(n) => var size: int := n.0; Some((-size, n.1)))
  }

  /** "OK", or NAME (detail=N, anything): the row's detail, when it is in range. */
  predicate ErrorRowValid(row: string) {
    match After(row, ERROR_LABEL)
    case None => false
    case Some(s) =>
      s == "OK" ||
      var n := Span(s, NameChar);
      n >= 1 && 'A' <= s[0] <= 'Z' &&
      match After(s[n..], DETAIL_LABEL)
      case None => false
      case Some(t) => DetailFieldValid(t)
  }

  predicate DetailFieldValid(t: string) {
    match ReadSigned(t)
    case None => false
    case Some(detail) =>
      && -0x8000_0000 <= detail.0 <= 0x7FFF_FFFF
      && ", " <= detail.1 && |detail.1| >= 3 && detail.1[|detail.1| - 1] == ')'
  }

  function ReadProvenance(s: string): Option<(Provenance, string)> {
    if "UNKNOWN" <= s then Some((Unknown, s[7..]))
    else if "WRITE_COMPLETED" <= s then Some((WriteCompleted, s[15..]))
    else if "READBACK_OBSERVED" <= s then Some((ReadbackObserved, s[17..]))
    else None
  }

  function ReadYesNo(s: string): Option<(bool, string)> {
    if "yes" <= s then Some((true, s[3..])) else if "no" <= s then Some((false, s[2..])) else None
  }

  /** The cache row parses, its flags agree with the provenance and its channel list with the byte. */
  predicate CacheRowValid(row: string) {
    match After(row, CACHE_LABEL)
    case None => false
    case Some(s0) =>
      match ReadProvenance(s0)
      case None => false
      case Some(p) =>
        match After(p.1, KNOWN_LABEL)
        case None => false
        case Some(s1) =>
          match ReadYesNo(s1)
          case None => false
          case Some(known) =>
            match After(known.1, VERIFIED_LABEL)
            case None => false
            case Some(s2) =>
              match ReadYesNo(s2)
              case None => false
              case Some(verified) =>
                && known.0 == !p.0.Unknown? && verified.0 == p.0.ReadbackObserved?
                && MaskFieldValid(verified.1)
  }

  /** value=0x and two hexadecimal digits. */
  function ReadMask(s: string): Option<(Byte, string)> {
    match After(s, VALUE_LABEL)
    case None => None
    case Some(t) =>
      if |t| >= 2 && IsDigit(t[0], 16) && IsDigit(t[1], 16)
      then Some((DigitValue(t[0]) * 16 + DigitValue(t[1]), t[2..])) else None
  }

  predicate MaskFieldValid(s: string) {
    match ReadMask(s)
    case None => false
    case Some(m) => ListFieldValid(m.1, m.0)
  }

  predicate ListFieldValid(s: string, mask: Byte) {
    s == " [" + Demanded(mask) + "]"
  }

  function ParseFields(rows: seq<string>): Option<Counters>
    requires |rows| == 4
  {
    match (ReadPair(rows[0], TOTALS_LABEL), ReadPair(rows[1], TIMES_LABEL))
    case (Some(totals), Some(times)) =>
      if !ErrorRowValid(rows[2]) || totals.0 > U32_MAX || totals.1 > U32_MAX || times.0 > U32_MAX || times.1 > U32_MAX
         || totals.0 == 0 || totals.1 == U32_MAX || !CacheRowValid(rows[3]) then None
      else Some(Counters(totals.0, totals.1, times.0, times.1))
    case _ => None
  }

  /** The stripped lines that are not empty. */
  function Rows(lines: seq<string>): seq<string> {
    if lines == [] then []
    else
      var row := Strip(lines[|lines| - 1]);
      Rows(lines[..|lines| - 1]) + if row != "" then [row] else []
  }

  // ---- the reader's own channel list

  /** The channels of a byte from `from` up, as the reader filters them. */
  function Selected(mask: Byte, from: nat): seq<nat>
    requires from <= 8
    decreases 8 - from
  {
    if from == 8 then [] else (if Bit(mask, from) then [from] else []) + Selected(mask, from + 1)
  }

  function Numbers(channels: seq<nat>): seq<string> {
    if channels == [] then [] else [Decimal(channels[0])] + Numbers(channels[1..])
  }

  /** ",".join */
  function CommaJoin(parts: seq<string>): string {
    if parts == [] then "" else if |parts| == 1 then parts[0] else parts[0] + "," + CommaJoin(parts[1..])
  }

  /** The list the reader demands beside a byte. */
  function Demanded(mask: Byte): string {
    var list := CommaJoin(Numbers(Selected(mask, 0)));
    if list == "" then "none" else list
  }

  function WithoutEcho(rows: seq<string>): seq<string> {
    if rows != [] && rows[0] == "health" then rows[1..] else rows
  }

  function WithoutPrompt(rows: seq<string>): seq<string> {
    if rows != [] && rows[|rows| - 1] == ">" then rows[..|rows| - 1] else rows
  }

  function ParseRows(rows: seq<string>): Option<Counters> {
    if |rows| != 11 || rows[..7] != HEALTHY_ROWS then None else ParseFields(rows[7..])
  }

  /** parse_health, on the lines of a response. */
  function ParseHealth(lines: seq<string>): Option<Counters> {
    ParseRows(WithoutPrompt(WithoutEcho(Rows(lines))))
  }

  // ---- agreement ---------------------------------------------------------------------------

  lemma AfterOwn(prefix: string, s: string)
    ensures After(prefix + s, prefix) == Some(s)
  {
    assert (prefix + s)[|prefix|..] == s;
  }

  /** A block of accepted characters ends where the first other one stands. */
  lemma {:induction false} SpanOf(block: string, rest: string, p: char -> bool)
    requires forall i :: 0 <= i < |block| ==> p(block[i])
    requires rest != "" ==> !p(rest[0])
    ensures Span(block + rest, p) == |block|
    decreases |block|
  {
    if block == "" {
      assert block + rest == rest;
    } else {
      assert (block + rest)[1..] == block[1..] + rest;
      SpanOf(block[1..], rest, p);
    }
  }

  lemma NumberReads(n: u32, rest: string)
    requires rest != "" ==> !Decimals(rest[0])
    ensures ReadNumber(Decimal(n) + rest) == Some((n, rest))
  {
    var s := Decimal(n);
    PrintReads(n, 10, false);
    WordLength(n);
    assert forall i :: 0 <= i < |s| ==> IsDigit(s[i], 10);
    SpanOf(s, rest, Decimals);
    assert (s + rest)[..|s|] == s && (s + rest)[|s|..] == rest;
  }

  lemma PairReads(title: string, a: u32, b: u32)
    ensures ReadPair(PairRow(title, a, b), title) == Some((a, b))
  {
    var tail := Decimal(b) + "";
    assert PairRow(title, a, b) == title + (Decimal(a) + ("/" + tail));
    AfterOwn(title, Decimal(a) + ("/" + tail));
    NumberReads(a, "/" + tail);
    AfterOwn("/", tail);
    NumberReads(b, "");
  }

  /** A printed natural number never starts like a negative one. */
  lemma NoSign(n: nat, rest: string)
    ensures After(Decimal(n) + rest, "-").None?
  {
    PrintReads(n, 10, false);
    assert IsDigit(Decimal(n)[0], 10);
    assert (Decimal(n) + rest)[0] == Decimal(n)[0];
  }

  lemma NegativeReads(size: nat, rest: string)
    requires size <= 0x8000_0000 && (rest != "" ==> !Decimals(rest[0]))
    ensures ReadSigned("-" + (Decimal(size) + rest)) == Some((0 - size, rest))
  {
    AfterOwn("-", Decimal(size) + rest);
    NumberReads(size, rest);
  }

  lemma SignedReads(n: i32, rest: string)
    requires rest != "" ==> !Decimals(rest[0])
    ensures ReadSigned(Signed(n) + rest) == Some((n, rest))
  {
    if n < 0 {
      var size: nat := 0 - n;
      assert Signed(n) + rest == "-" + (Decimal(size) + rest);
      NegativeReads(size, rest);
    } else {
      NoSign(n, rest);
      NumberReads(n, rest);
    }
  }

  /** NAME of the reader's pattern: an upper-case letter, then upper-case letters, digits and '_'. */
  ghost predicate Named(name: string) {
    |name| >= 1 && 'A' <= name[0] <= 'Z' && forall i :: 0 <= i < |name| ==> NameChar(name[i])
  }

  predicate Plain(e: Err) {
    e.Ok? || e.NotInitialized? || e.InvalidConfig? || e.I2cError? || e.Timeout? || e.InvalidParam?
  }

  lemma PlainErrorNamed(e: Err)
    requires Plain(e)
    ensures Named(ErrorName(e))
  {
  }

  lemma OtherErrorNamed(e: Err)
    requires !Plain(e)
    ensures Named(ErrorName(e))
  {
  }

  lemma DetailReads(detail: i32, text: string)
    ensures DetailFieldValid(Signed(detail) + (", " + text + ")"))
  {
    SignedReads(detail, ", " + text + ")");
  }

  lemma NamedErrorReads(name: string, detail: i32, text: string)
    requires Named(name)
    ensures ErrorRowValid(ERROR_LABEL + (name + DetailText(detail, text)))
  {
    var field := Signed(detail) + (", " + text + ")");
    var s := name + DetailText(detail, text);
    AfterOwn(ERROR_LABEL, s);
    SpanOf(name, DetailText(detail, text), NameChar);
    assert s[|name|..] == DetailText(detail, text);
    AfterOwn(DETAIL_LABEL, field);
    DetailReads(detail, text);
  }

  /** The last-error row is always well-formed, whatever the sticky error is. */
  lemma ErrorRowReads(st: Status, text: string)
    ensures ErrorRowValid(ErrorRow(st, text))
  {
    var name := ErrorName(st.code);
    if st.IsOk() {
      AfterOwn(ERROR_LABEL, "OK");
      assert name + "" == "OK";
    } else {
      if Plain(st.code) {
        PlainErrorNamed(st.code);
      } else {
        OtherErrorNamed(st.code);
      }
      NamedErrorReads(name, st.detail, text);
    }
  }

  /** The code name and the detail that a last-error row shows; "OK" shows no detail. */
  function ErrorShown(row: string): Option<(string, Option<int>)> {
    match After(row, ERROR_LABEL)
    case None => None
    case Some(s) =>
      var n := Span(s, NameChar);
      match After(s[n..], DETAIL_LABEL)
      case None => if s == "OK" then Some(("OK", None)) else None
      case Some(t) => (match ReadSigned(t) case None => None case Some(d) => Some((s[..n], Some(d.0))))
  }

  lemma NamedErrorShows(name: string, detail: i32, text: string)
    requires Named(name)
    ensures ErrorShown(ERROR_LABEL + (name + DetailText(detail, text))) == Some((name, Some(detail)))
  {
    var field := Signed(detail) + (", " + text + ")");
    var s := name + DetailText(detail, text);
    AfterOwn(ERROR_LABEL, s);
    SpanOf(name, DetailText(detail, text), NameChar);
    assert s[|name|..] == DetailText(detail, text) && s[..|name|] == name;
    AfterOwn(DETAIL_LABEL, field);
    SignedReads(detail, ", " + text + ")");
  }

  lemma NoErrorShows()
    ensures ErrorShown(ERROR_LABEL + "OK") == Some(("OK", None))
  {
    AfterOwn(ERROR_LABEL, "OK");
    SpanOf("OK", "", NameChar);
    assert "OK" + "" == "OK" && "OK"[2..] == "";
  }

  /** The last-error row shows the name of the sticky error's code and its detail, sign included. */
  lemma ErrorRowShows(st: Status, text: string)
    ensures ErrorShown(ErrorRow(st, text)) == if st.IsOk() then Some(("OK", None)) else Some((ErrorName(st.code), Some(st.detail)))
  {
    var name := ErrorName(st.code);
    if st.IsOk() {
      NoErrorShows();
      assert name + "" == "OK";
    } else {
      if Plain(st.code) {
        PlainErrorNamed(st.code);
      } else {
        OtherErrorNamed(st.code);
      }
      NamedErrorShows(name, st.detail, text);
    }
  }

  lemma HexReads(b: Byte)
    ensures var h := HexByte(b);
            IsDigit(h[0], 16) && IsDigit(h[1], 16) && DigitValue(h[0]) * 16 + DigitValue(h[1]) == b
  {
    DigitRoundTrip(b / 16, true);
    DigitRoundTrip(b % 16, true);
  }

  lemma ValuePrefix(x: string)
    ensures " value=" + ("0x" + x) == VALUE_LABEL + x
  {
  }

  // ---- the channel list

  /** The list holds exactly the set channels, in ascending order. */
  lemma {:induction false} ChannelsExactly(mask: Byte, n: nat)
    requires n <= 8
    ensures forall c: nat :: c in Channels(mask, n) <==> c < n && Bit(mask, c)
    ensures forall i, j :: 0 <= i < j < |Channels(mask, n)| ==> Channels(mask, n)[i] < Channels(mask, n)[j]
    decreases n
  {
    if n > 0 {
      ChannelsExactly(mask, n - 1);
      var before := Channels(mask, n - 1);
      assert forall i :: 0 <= i < |before| ==> before[i] in before;
    }
  }

  lemma NextChannel(mask: Byte, n: nat)
    requires n < 8
    ensures Channels(mask, n) + Selected(mask, n) == Channels(mask, n + 1) + Selected(mask, n + 1)
  {
    var one := if Bit(mask, n) then [n] else [];
    assert Selected(mask, n) == one + Selected(mask, n + 1) && Channels(mask, n + 1) == Channels(mask, n) + one;
  }

  /** Printer and reader collect the same channels, from opposite ends. */
  lemma {:induction false} SelectedAreChannels(mask: Byte, m: nat, n: nat)
    requires m <= n <= 8
    ensures Channels(mask, m) + Selected(mask, m) == Channels(mask, n) + Selected(mask, n)
    decreases n - m
  {
    if m < n {
      NextChannel(mask, m);
      SelectedAreChannels(mask, m + 1, n);
    }
  }

  lemma EmptyEnds(a: seq<nat>, b: seq<nat>, c: seq<nat>, d: seq<nat>)
    requires a + b == c + d && a == [] && d == []
    ensures b == c
  {
    assert a + b == b && c + d == c;
  }

  lemma AllSelected(mask: Byte, first: nat, last: nat)
    requires first <= last <= 8 && Channels(mask, first) == [] && Selected(mask, last) == []
    ensures Channels(mask, last) == Selected(mask, first)
  {
    SelectedAreChannels(mask, first, last);
    EmptyEnds(Channels(mask, first), Selected(mask, first), Channels(mask, last), Selected(mask, last));
  }

  lemma {:induction false} NumbersAppend(a: seq<nat>, c: nat)
    ensures Numbers(a + [c]) == Numbers(a) + [Decimal(c)] && |Numbers(a)| == |a|
    decreases |a|
  {
    if a != [] {
      NumbersAppend(a[1..], c);
      assert (a + [c])[1..] == a[1..] + [c];
    } else {
      assert (a + [c])[1..] == [];
    }
  }

  lemma {:induction false} CommaJoinAppend(a: seq<string>, x: string)
    ensures CommaJoin(a + [x]) == if a == [] then x else CommaJoin(a) + "," + x
    decreases |a|
  {
    if a != [] {
      CommaJoinAppend(a[1..], x);
      assert (a + [x])[1..] == a[1..] + [x];
      if |a| > 1 {
        assert a[0] + "," + (CommaJoin(a[1..]) + "," + x) == a[0] + "," + CommaJoin(a[1..]) + "," + x;
      }
    }
  }

  lemma {:induction false} JoinIsCommaJoin(channels: seq<nat>)
    ensures Join(channels) == CommaJoin(Numbers(channels))
    decreases |channels|
  {
    if channels != [] {
      var (before, c) := (channels[..|channels| - 1], channels[|channels| - 1]);
      JoinIsCommaJoin(before);
      assert channels == before + [c];
      NumbersAppend(before, c);
      CommaJoinAppend(Numbers(before), Decimal(c));
    }
  }

  lemma {:induction false} JoinNotEmpty(channels: seq<nat>)
    requires channels != []
    ensures Join(channels) != "" && '0' <= Join(channels)[0] <= '9'
    decreases |channels|
  {
    var c := channels[|channels| - 1];
    PrintReads(c, 10, false);
    assert IsDigit(Decimal(c)[0], 10);
    if |channels| == 1 {
      assert Join(channels) == Decimal(c);
    } else {
      var before := Join(channels[..|channels| - 1]);
      JoinNotEmpty(channels[..|channels| - 1]);
      assert Join(channels) == before + "," + Decimal(c) && Join(channels)[0] == before[0];
    }
  }

  lemma ListsAgree(mask: Byte)
    ensures Demanded(mask) == ChannelList(mask)
  {
    var channels := Channels(mask, 8);
    AllSelected(mask, 0, 8);
    JoinIsCommaJoin(channels);
    if channels != [] { JoinNotEmpty(channels); }
  }

  /** `text.split(",")` */
  function SplitCommas(text: string): (parts: seq<string>)
    ensures |parts| >= 1
  {
    if text == "" then [""]
    else
      var (before, c) := (SplitCommas(text[..|text| - 1]), text[|text| - 1]);
      if c == ',' then before + [""] else before[..|before| - 1] + [before[|before| - 1] + [c]]
  }

  lemma OneDigit(c: nat)
    requires c < 8
    ensures Decimal(c) == ["01234567"[c]]
  {
  }

  lemma SplitDigit(text: string, d: char)
    requires d != ','
    ensures SplitCommas(text + "," + [d]) == SplitCommas(text) + [[d]]
  {
    var t := text + ",";
    assert t[..|t| - 1] == text && (t + [d])[..|t|] == t;
    assert "" + [d] == [d];
  }

  lemma {:induction false} SplitJoin(channels: seq<nat>)
    requires channels != [] && forall c :: c in channels ==> c < 8
    ensures SplitCommas(Join(channels)) == Numbers(channels)
    decreases |channels|
  {
    var (before, c) := (channels[..|channels| - 1], channels[|channels| - 1]);
    assert channels == before + [c] && c in channels;
    OneDigit(c);
    NumbersAppend(before, c);
    var d := "01234567"[c];
    if before == [] {
      assert Decimal(c)[..0] == "" && "" + [d] == [d] && SplitCommas([d]) == [[d]];
    } else {
      assert forall b :: b in before ==> b in channels;
      SplitJoin(before);
      SplitDigit(Join(before), d);
    }
  }

  /** What the printed list says of a byte: "none" for zero alone; otherwise, split at its commas, the
      numerals of exactly the set channels in ascending order. */
  lemma ChannelListMeans(mask: Byte)
    ensures ChannelList(mask) == "none" <==> mask == 0
    ensures mask != 0 ==> SplitCommas(ChannelList(mask)) == Numbers(Channels(mask, 8))
    ensures forall c: nat :: c in Channels(mask, 8) <==> c < 8 && Bit(mask, c)
    ensures forall i, j :: 0 <= i < j < |Channels(mask, 8)| ==> Channels(mask, 8)[i] < Channels(mask, 8)[j]
  {
    ChannelsExactly(mask, 8);
    NoChannelMeansZero(mask, Channels(mask, 8));
    ListText(Channels(mask, 8));
  }

  lemma NoChannelMeansZero(mask: Byte, channels: seq<nat>)
    requires forall c: nat :: c in channels <==> c < 8 && Bit(mask, c)
    ensures channels == [] <==> mask == 0
  {
    ByteRange();
    NoBitsIsZero(mask, 8);
    if channels != [] {
      assert channels[0] in channels;
    } else {
      assert forall c: nat :: c < 8 ==> c !in channels;
    }
  }

  lemma ListText(channels: seq<nat>)
    requires forall c :: c in channels ==> c < 8
    ensures channels != [] ==> Join(channels) != "none" && SplitCommas(Join(channels)) == Numbers(channels)
  {
    if channels != [] {
      JoinNotEmpty(channels);
      SplitJoin(channels);
      assert "none"[0] == 'n';
    }
  }

  /** A byte's field passes exactly with the list of that byte. */
  lemma MaskFieldExact(b: Byte, list: string)
    ensures MaskFieldValid(VALUE_LABEL + (HexByte(b) + (" [" + list + "]"))) <==> list == Demanded(b)
  {
    HexReads(b);
    MaskReads(HexByte(b), " [" + list + "]", b);
    ListFieldExact(b, list);
  }

  lemma MaskReads(h: string, rest: string, b: Byte)
    requires |h| == 2 && IsDigit(h[0], 16) && IsDigit(h[1], 16) && DigitValue(h[0]) * 16 + DigitValue(h[1]) == b
    ensures ReadMask(VALUE_LABEL + (h + rest)) == Some((b, rest))
  {
    AfterOwn(VALUE_LABEL, h + rest);
    assert (h + rest)[0] == h[0] && (h + rest)[1] == h[1] && (h + rest)[2..] == rest;
  }

  lemma ListFieldExact(b: Byte, list: string)
    ensures ListFieldValid(" [" + list + "]", b) <==> list == Demanded(b)
  {
    BracketsKeep(list, Demanded(b));
  }

  lemma BracketsKeep(a: string, b: string)
    ensures " [" + a + "]" == " [" + b + "]" <==> a == b
  {
    var (x, y) := (" [" + a + "]", " [" + b + "]");
    assert x[2..|x| - 1] == a && y[2..|y| - 1] == b;
  }

  lemma MaskFieldReads(b: Byte, list: string)
    requires list == ChannelList(b)
    ensures MaskFieldValid(VALUE_LABEL + (HexByte(b) + (" [" + list + "]")))
  {
    MaskFieldExact(b, list);
    ListsAgree(b);
  }

  lemma MaskTextReads(b: Byte)
    ensures MaskFieldValid(" value=" + MaskText(b))
  {
    var list := ChannelList(b);
    ValuePrefix(HexByte(b) + (" [" + list + "]"));
    assert MaskText(b) == "0x" + (HexByte(b) + (" [" + list + "]"));
    MaskFieldReads(b, list);
  }

  lemma FlagReads(b: bool, rest: string)
    ensures ReadYesNo(YesNo(b) + rest) == Some((b, rest))
  {
    assert (YesNo(b) + rest)[|YesNo(b)|..] == rest;
    assert (YesNo(b) + rest)[0] == YesNo(b)[0];
  }

  lemma ProvenanceReads(p: Provenance, rest: string)
    ensures ReadProvenance(ProvenanceName(p) + rest) == Some((p, rest))
  {
    var s := ProvenanceName(p) + rest;
    assert s[0] == ProvenanceName(p)[0];
    assert s[|ProvenanceName(p)|..] == rest;
  }

  /** The cache row always passes its cross-checks: flags against provenance, channels against byte. */
  lemma CacheRowReads(o: Observation)
    ensures CacheRowValid(ObservationRow(o))
  {
    var s3 := " value=" + MaskText(o.mask);
    var s2 := YesNo(o.Verified()) + s3;
    var s1 := YesNo(o.Known()) + (VERIFIED_LABEL + s2);
    var s0 := ProvenanceName(o.provenance) + (KNOWN_LABEL + s1);
    AfterOwn(CACHE_LABEL, s0);
    ProvenanceReads(o.provenance, KNOWN_LABEL + s1);
    AfterOwn(KNOWN_LABEL, s1);
    FlagReads(o.Known(), VERIFIED_LABEL + s2);
    AfterOwn(VERIFIED_LABEL, s2);
    FlagReads(o.Verified(), s3);
    MaskTextReads(o.mask);
  }

  lemma ReadyText()
    ensures StateRow(Ready) == "State: READY (passive; never gates I2C)"
  {
  }

  lemma YesTexts()
    ensures "State alias parity: " + YesNo(true) == "State alias parity: yes" && "Bound: " + YesNo(true) == "Bound: yes"
    ensures "Initialized: " + YesNo(true) == "Initialized: yes" && "Online: " + YesNo(true) == "Online: yes"
  {
  }

  lemma ZeroText()
    ensures "Consecutive failures: " + Decimal(0) == "Consecutive failures: 0"
  {
    assert Decimal(0) == "0";
  }

  lemma ReadyReadsHealthy()
    ensures SteadyRows(Ready, true, true, true, 0) == HEALTHY_ROWS
  {
    ReadyText();
    YesTexts();
    ZeroText();
  }

  /** The cross-checks are exact: a row with any provenance, flags, byte and list passes if and only if
      the flags are those of the provenance and the list is that of the byte. */
  lemma CacheRowExact(p: Provenance, known: bool, verified: bool, b: Byte, list: string)
    ensures CacheRowValid(CACHE_LABEL + (ProvenanceName(p) + (KNOWN_LABEL + (YesNo(known) + (VERIFIED_LABEL + (YesNo(verified)
              + (VALUE_LABEL + (HexByte(b) + (" [" + list + "]")))))))))
            <==> known == !p.Unknown? && verified == p.ReadbackObserved? && list == Demanded(b)
  {
    var s3 := VALUE_LABEL + (HexByte(b) + (" [" + list + "]"));
    var s2 := YesNo(verified) + s3;
    var s1 := YesNo(known) + (VERIFIED_LABEL + s2);
    var s0 := ProvenanceName(p) + (KNOWN_LABEL + s1);
    AfterOwn(CACHE_LABEL, s0);
    ProvenanceReads(p, KNOWN_LABEL + s1);
    AfterOwn(KNOWN_LABEL, s1);
    FlagReads(known, VERIFIED_LABEL + s2);
    AfterOwn(VERIFIED_LABEL, s2);
    FlagReads(verified, s3);
    MaskFieldExact(b, list);
  }

  /** Whatever the rows, what the reader returns is a possible READY snapshot. */
  lemma ReadingIsBounded(rows: seq<string>)
    requires |rows| == 4 && ParseFields(rows).Some?
    ensures var c := ParseFields(rows).value;
            && 1 <= c.successes <= U32_MAX && c.failures < U32_MAX && c.lastOkMs <= U32_MAX && c.lastErrorMs <= U32_MAX
            && ErrorRowValid(rows[2]) && CacheRowValid(rows[3])
  {
  }

  lemma OnlyReadyReadsHealthy(s: DriverState, bound: bool, initialized: bool, online: bool, streak: nat)
    requires !s.Ready?
    ensures SteadyRows(s, bound, initialized, online, streak) != HEALTHY_ROWS
  {
    assert StateRow(s)[7] == StateName(s)[0] != 'R' == HEALTHY_ROWS[1][7];
    assert SteadyRows(s, bound, initialized, online, streak)[1] == StateRow(s);
  }

  lemma FieldsRead(d: Dev, text: string)
    requires d.totalSuccess > 0
    ensures ParseFields(FieldRows(d, text)) ==
              if d.totalFailures < U32_MAX
              then Some(Counters(d.totalSuccess, d.totalFailures, d.lastOkMs, d.lastErrorMs)) else None
  {
    PairReads(TOTALS_LABEL, d.totalSuccess, d.totalFailures);
    PairReads(TIMES_LABEL, d.lastOkMs, d.lastErrorMs);
    ErrorRowReads(d.lastError, text);
    CacheRowReads(d.obs);
  }

  lemma ParseSplits(steady: seq<string>, fields: seq<string>)
    requires |steady| == 7 && |fields| == 4
    ensures ParseRows(steady + fields) == if steady == HEALTHY_ROWS then ParseFields(fields) else None
  {
    assert (steady + fields)[..7] == steady && (steady + fields)[7..] == fields;
  }

  // ---- lines and rows ------------------------------------------------------------------------

  ghost predicate AllSolid(rows: seq<string>) {
    forall i :: 0 <= i < |rows| ==> Solid(rows[i])
  }

  lemma {:induction false} RowsJoin(a: seq<string>, b: seq<string>)
    ensures Rows(a + b) == Rows(a) + Rows(b)
    decreases |b|
  {
    if b == [] {
      assert a + b == a;
    } else {
      RowsJoin(a, b[..|b| - 1]);
      assert (a + b)[..|a + b| - 1] == a + b[..|b| - 1];
    }
  }

  lemma OneLine(line: string, row: string)
    requires Strip(line) == row != ""
    ensures Rows([line]) == [row]
  {
    assert [line][..0] == [];
  }

  lemma {:induction false} RowsOfIndented(rows: seq<string>)
    requires AllSolid(rows)
    ensures Rows(Indented(rows)) == rows
    decreases |rows|
  {
    if rows != [] {
      var (before, row) := (rows[..|rows| - 1], rows[|rows| - 1]);
      RowsOfIndented(before);
      Stripped(row);
      OneLine("  " + row, row);
      RowsJoin(Indented(before), ["  " + row]);
      assert before + [row] == rows;
    }
  }

  lemma LastOfDecimal(n: nat)
    ensures Decimal(n) != "" && !White(Decimal(n)[|Decimal(n)| - 1])
  {
    PrintReads(n, 10, false);
    assert IsDigit(Decimal(n)[|Decimal(n)| - 1], 10);
  }

  lemma StateSolid(state: DriverState)
    ensures Solid(StateRow(state)) && Solid("=== Driver Health ===")
  {
    SolidEnds("State: " + StateName(state), " (passive; never gates I2C)");
  }

  lemma FlagSolid(title: string, b: bool)
    requires title != "" && !White(title[0])
    ensures Solid(title + YesNo(b))
  {
    SolidEnds(title, YesNo(b));
  }

  lemma StreakSolid(streak: nat)
    ensures Solid("Consecutive failures: " + Decimal(streak))
  {
    LastOfDecimal(streak);
    SolidEnds("Consecutive failures: ", Decimal(streak));
  }

  lemma SteadySolid(state: DriverState, bound: bool, initialized: bool, online: bool, streak: nat)
    ensures AllSolid(SteadyRows(state, bound, initialized, online, streak))
  {
    StateSolid(state);
    FlagSolid("State alias parity: ", true);
    FlagSolid("Bound: ", bound);
    FlagSolid("Initialized: ", initialized);
    FlagSolid("Online: ", online);
    StreakSolid(streak);
  }

  lemma PairSolid(title: string, a: u32, b: u32)
    requires title != "" && !White(title[0])
    ensures Solid(PairRow(title, a, b))
  {
    LastOfDecimal(b);
    assert (title + Decimal(a) + "/")[0] == title[0];
    SolidEnds(title + Decimal(a) + "/", Decimal(b));
  }

  lemma ErrorSolid(st: Status, text: string)
    ensures Solid(ErrorRow(st, text))
  {
    var name := ErrorName(st.code);
    if st.IsOk() {
      assert name + "" == "OK";
      SolidEnds("Last error: ", "OK");
    } else {
      var tail := DetailText(st.detail, text);
      assert tail[|tail| - 1] == ')';
      assert (name + tail)[|name + tail| - 1] == ')';
      SolidEnds("Last error: ", name + tail);
    }
  }

  lemma ObservationSolid(o: Observation)
    ensures Solid(ObservationRow(o))
  {
    var mask := " value=" + MaskText(o.mask);
    assert mask[|mask| - 1] == ']';
    var s2 := YesNo(o.Verified()) + mask;
    var s1 := YesNo(o.Known()) + (" verified=" + s2);
    var s0 := ProvenanceName(o.provenance) + (" known=" + s1);
    assert s0[|s0| - 1] == ']';
    SolidEnds("Mask cache: ", s0);
  }

  lemma TotalsSolid(d: Dev)
    ensures Solid(PairRow("Total success/failure: ", d.totalSuccess, d.totalFailures))
  {
    PairSolid("Total success/failure: ", d.totalSuccess, d.totalFailures);
  }

  lemma TimesSolid(d: Dev)
    ensures Solid(PairRow("Last OK/error ms: ", d.lastOkMs, d.lastErrorMs))
  {
    PairSolid("Last OK/error ms: ", d.lastOkMs, d.lastErrorMs);
  }

  lemma FieldsSolid(d: Dev, text: string)
    ensures AllSolid(FieldRows(d, text))
  {
    TotalsSolid(d);
    TimesSolid(d);
    ErrorSolid(d.lastError, text);
    ObservationSolid(d.obs);
    FourSolid(PairRow("Total success/failure: ", d.totalSuccess, d.totalFailures),
              PairRow("Last OK/error ms: ", d.lastOkMs, d.lastErrorMs), ErrorRow(d.lastError, text), ObservationRow(d.obs));
  }

  lemma FourSolid(a: string, b: string, c: string, d: string)
    requires Solid(a) && Solid(b) && Solid(c) && Solid(d)
    ensures AllSolid([a, b, c, d])
  {
  }

  lemma JoinSolid(a: seq<string>, b: seq<string>)
    requires AllSolid(a) && AllSolid(b)
    ensures AllSolid(a + b)
  {
  }

  lemma Titled(state: DriverState, bound: bool, initialized: bool, online: bool, streak: nat)
    ensures SteadyRows(state, bound, initialized, online, streak)[0] != "health"
  {
    assert "=== Driver Health ==="[0] != "health"[0];
  }

  lemma RowsSolid(d: Dev, wording: Message -> string)
    ensures AllSolid(HealthRows(d, wording)) && HealthRows(d, wording)[0] != "health"
  {
    var steady := SteadyRows(d.state, d.bound, d.initialized, Online(d), d.consecutiveFailures);
    var fields := FieldRows(d, wording(d.lastError.msg));
    assert AllSolid(steady) by { SteadySolid(d.state, d.bound, d.initialized, Online(d), d.consecutiveFailures); }
    assert steady[0] != "health" by { Titled(d.state, d.bound, d.initialized, Online(d), d.consecutiveFailures); }
    FieldsSolid(d, wording(d.lastError.msg));
    JoinSolid(steady, fields);
    assert (steady + fields)[0] == steady[0];
  }

  /** A response: perhaps the echo of the command, the printed lines, the next prompt. */
  function Response(echo: bool, lines: seq<string>): seq<string> {
    (if echo then ["health"] else []) + lines + ["> "]
  }

  lemma LaidOutRows(rows: seq<string>)
    requires |rows| == 11 && AllSolid(rows)
    ensures Rows(LaidOut(rows)) == rows
  {
    Stripped(rows[0]);
    Stripped(rows[10]);
    OneLine(rows[0], rows[0]);
    OneLine(rows[10], rows[10]);
    assert AllSolid(rows[1..10]);
    RowsOfIndented(rows[1..10]);
    RowsJoin([rows[0]], Indented(rows[1..10]));
    RowsJoin([rows[0]] + Indented(rows[1..10]), [rows[10]]);
    Ends(rows);
  }

  lemma Ends(rows: seq<string>)
    requires |rows| == 11
    ensures [rows[0]] + rows[1..10] + [rows[10]] == rows
  {
  }

  lemma PromptRow()
    ensures Rows(["> "]) == [">"]
  {
    assert "> "[..1] == ">";
    OneLine("> ", ">");
  }

  lemma EchoRow()
    ensures Rows(["health"]) == ["health"]
  {
    Stripped("health");
    OneLine("health", "health");
  }

  lemma Framed(echo: bool, lines: seq<string>, rows: seq<string>)
    requires Rows(lines) == rows && rows != [] && rows[0] != "health"
    ensures WithoutPrompt(WithoutEcho(Rows(Response(echo, lines)))) == rows
  {
    var head: seq<string> := if echo then ["health"] else [];
    PromptRow();
    EchoRow();
    RowsJoin(head, lines);
    RowsJoin(head + lines, ["> "]);
    Unframed(head, rows);
  }

  lemma Unframed(head: seq<string>, rows: seq<string>)
    requires (head == [] || head == ["health"]) && rows != [] && rows[0] != "health"
    ensures WithoutPrompt(WithoutEcho(head + rows + [">"])) == rows
  {
    var all := head + rows + [">"];
    if head != [] {
      assert all[0] == "health" && all[1..] == rows + [">"];
    } else {
      assert all == rows + [">"] && all[0] == rows[0];
    }
    assert (rows + [">"])[..|rows|] == rows;
  }

  lemma ResponseRows(echo: bool, d: Dev, wording: Message -> string)
    ensures WithoutPrompt(WithoutEcho(Rows(Response(echo, HealthLines(d, wording))))) == HealthRows(d, wording)
  {
    var rows := HealthRows(d, wording);
    RowsSolid(d, wording);
    LaidOutRows(rows);
    Framed(echo, LaidOut(rows), rows);
  }

  /** What the runner reads from the report of a driver. */
  function Reading(d: Dev): Option<Counters> {
    if d.state.Ready? && d.totalFailures < U32_MAX
    then Some(Counters(d.totalSuccess, d.totalFailures, d.lastOkMs, d.lastErrorMs)) else None
  }

  ghost predicate ReadyWorks(d: Dev) {
    d.state.Ready? ==> d.bound && d.initialized && d.consecutiveFailures == 0 && d.totalSuccess > 0
  }

  lemma ReachableReadyWorks(hw: Byte, calls: seq<Call>)
    ensures ReadyWorks(DriverSpec.Run(PowerOn(hw), calls).dev)
  {
    TruthHolds(hw, calls);
  }

  lemma ReportReads(d: Dev, wording: Message -> string)
    requires ReadyWorks(d)
    ensures ParseRows(HealthRows(d, wording)) == Reading(d)
  {
    ReadyReadsHealthy();
    var text := wording(d.lastError.msg);
    var steady := SteadyRows(d.state, d.bound, d.initialized, Online(d), d.consecutiveFailures);
    ParseSplits(steady, FieldRows(d, text));
    if d.state.Ready? {
      FieldsRead(d, text);
    } else {
      OnlyReadyReadsHealthy(d.state, d.bound, d.initialized, Online(d), d.consecutiveFailures);
    }
  }

  /** In every reachable driver state the runner accepts the printed health report, echoed or not,
      if and only if the driver is READY and its failure counter is unsaturated, and then it reads
      back exactly the driver's four counters. */
  lemma PrinterAndReaderAgree(hw: Byte, calls: seq<Call>, wording: Message -> string, echo: bool)
    ensures var d := DriverSpec.Run(PowerOn(hw), calls).dev;
            ParseHealth(Response(echo, HealthLines(d, wording))) == Reading(d)
  {
    ReachableReadyWorks(hw, calls);
    ResponseRows(echo, DriverSpec.Run(PowerOn(hw), calls).dev, wording);
    ReportReads(DriverSpec.Run(PowerOn(hw), calls).dev, wording);
  }
}
