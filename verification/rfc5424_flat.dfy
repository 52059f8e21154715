/**
 * A reference reading of what the canonical `Progressive2.parse5424` does to
 * the bytes it has not consumed yet, stated on one contiguous sequence
 * instead of a channel of chunks. The chunked parser is proved against it.
 *
 * Where the chunked parser's behaviour depends on how the bytes are split
 * into chunks (a scan that runs into the end of the stream), the reference
 * answers `Exhausted` / `ReachedEnd` and promises nothing.
 */
module Rfc5424Flat {
  import opened Bytes
  import opened Scan
  import opened SdValue
  import opened Rfc5424Time

  /** What a record leaves in the parser's fields. */
  datatype Fields = Fields(pri: int, ts: Option<DateTime>, host: Option<string>,
                           app: Option<string>, proc: Option<int>, msgid: Option<string>,
                           sd: map<(string, string), string>)

  /** The values `parse5424` resets its fields to before reading a record. */
  const Reset := Fields(0, None, None, None, None, None, map[])

  /**
   * The result of one scan: a value and the bytes after it, a miss that
   * leaves the scanner at `rest`, an exception, or running into the end of
   * the stream.
   */
  datatype Lexed<T> = Ok(value: T, rest: seq<byte>) | Miss(rest: seq<byte>) | Thrown(e: Raised) | Exhausted

  /** Where a parsing step leaves the record: continue, return a verdict, throw, or unknown. */
  datatype Flat =
    | Cont(f: Fields, rest: seq<byte>)
    | Ret(ok: bool, f: Fields, rest: seq<byte>)
    | Raise(e: Raised)
    | ReachedEnd

  predicate StartsWith(s: seq<byte>, b: byte) { s != [] && s[0] == b }

  /** The text of a token, `None` for the nil value `-`. */
  function Name(token: seq<byte>): (r: Option<string>)
    ensures r.Some? ==> r.value == Latin1(token) && token != NIL
    ensures r.None? <==> token == NIL
  {
    if token == NIL then None else Some(Latin1(token))
  }

  // ---------------------------------------------------------------------------------------------
  // The scanning primitives on a contiguous input

  /** `skip(c)`: true with the bytes after the span, false on empty input. */
  function SkipFlat(s: seq<byte>, c: ByteClass): (r: Lexed<bool>)
    ensures r.Ok? || r.Exhausted?
    ensures r.Ok? ==> IsSuffix(r.rest, s) && (r.value <==> s != [])
    ensures r.Ok? && r.value ==> r.rest != [] && !In(c, r.rest[0])
  {
    var k := SpanOf(s, c);
    SpanOfBytes(s, c);
    if k < |s| then Ok(true, s[k..]) else if s == [] then Ok(false, []) else Exhausted
  }

  /** `readDigits`: the values of a non-empty digit run and the bytes after it. */
  function DigitsFlat(s: seq<byte>): (r: Lexed<seq<int>>)
    ensures !r.Thrown?
    ensures r.Miss? ==> r.rest == s && (s == [] || !IsDigit(s[0]))
    ensures r.Ok? ==> 0 < |r.value| < |s| && r.rest == s[|r.value|..] && !IsDigit(r.rest[0])
  {
    var k := SpanOf(s, Digit);
    SpanOfBytes(s, Digit);
    if k == 0 then Miss(s)
    else if k < |s| then Ok(DigitValues(s[..k]), s[k..])
    else Exhausted
  }

  /** `readUntil() && tmp == nilBytes`: whether the next token is the nil value `-`. */
  function NilFlat(s: seq<byte>): (r: Lexed<bool>)
    ensures r.Ok? || r.Exhausted?
    ensures r.Ok? ==> IsSuffix(r.rest, s) && r.rest != [] && Stops(Space, r.rest[0])
  {
    match TokenFlat(s, Space)
    case Ok(token, rest) => Ok(token == NIL, rest)
    case _ => Exhausted
  }

  /** `readUntil(c)` with the scratch buffer: the token before the first stop byte, which stays unread. */
  function TokenFlat(s: seq<byte>, c: ByteClass): (r: Lexed<seq<byte>>)
    ensures r.Ok? || r.Exhausted?
    ensures r.Ok? ==> s == r.value + r.rest && r.rest != [] && Stops(c, r.rest[0])
  {
    var n := StopIndex(s, c);
    SpanOfBytes(s, Token(c));
    if n < |s| then Ok(s[..n], s[n..]) else Exhausted
  }

  /** `skipPrefix(sep)` then `readDigits`. */
  function SepDigitsFlat(s: seq<byte>, sep: byte): (r: Lexed<seq<int>>)
    ensures !r.Thrown?
    ensures r.Miss? ==> IsSuffix(r.rest, s)
  {
    if !StartsWith(s, sep) then Miss(s) else DigitsFlat(s[1..])
  }

  // ---------------------------------------------------------------------------------------------
  // parseTs and parseOffset

  /** `parseOffset(sign)`: `hh:mm` after the sign, as an offset in seconds. */
  function OffsetFlat(s: seq<byte>, sign: int): (r: Lexed<int>)
    ensures r.Thrown? ==> r.e == InvalidDateTime
  {
    match DigitsFlat(s)
    case Exhausted => Exhausted
    case Thrown(e) => Thrown(e)
    case Miss(rest) => Miss(rest)
    case Ok(hs, rest) =>
      match SepDigitsFlat(rest, COLON)
      case Exhausted => Exhausted
      case Thrown(e) => Thrown(e)
      case Miss(rest') => Miss(rest')
      case Ok(ms, rest') =>
        match OffsetOf(Wrap32(Acc32(0, hs) * sign), Wrap32(Acc32(0, ms) * sign))
        case None => Thrown(InvalidDateTime)
        case Some(seconds) => Ok(seconds, rest')
  }

  /** The zone designator after the time: `Z`, `+hh:mm` or `-hh:mm`, read with `skipByte`. */
  function ZoneFlat(s: seq<byte>): (r: Lexed<int>)
    ensures r.Thrown? ==> r.e == InvalidDateTime
  {
    if s == [] then Miss([])
    else if s[0] == UPPER_Z then Ok(0, s[1..])
    else if s[0] == PLUS then OffsetFlat(s[1..], 1)
    else if s[0] == DASH then OffsetFlat(s[1..], -1)
    else Miss(s[1..])
  }

  /** The fraction of a second, right-padded to nanoseconds; more than nine digits is a miss. */
  function FractionFlat(s: seq<byte>): (r: Lexed<int>)
    ensures !r.Thrown?
  {
    if !StartsWith(s, DOT) then Ok(0, s)
    else match DigitsFlat(s[1..])
      case Exhausted => Exhausted
      case Thrown(e) => Thrown(e)
      case Miss(rest) => Miss(rest)
      case Ok(ds, rest) =>
        if |ds| > 9 then Miss(rest) else Ok(PadRight(Acc32(0, ds), |ds| + 1), rest)
  }

  /** `nanos *= 10` for each position from `i` to 9, in `Int` arithmetic. */
  function PadRight(v: int, i: int): int
    decreases 10 - i
  {
    if i > 9 then v else PadRight(Wrap32(v * 10), i + 1)
  }

  /**
   * Padding never wraps: a fraction of one to nine digits becomes its value
   * in nanoseconds, below one second.
   */
  lemma {:induction false} PadRightValue(v: int, digits: int)
    requires 1 <= digits <= 9 && 0 <= v < Pow10(digits)
    ensures PadRight(v, digits + 1) == v * Pow10(9 - digits)
    ensures 0 <= PadRight(v, digits + 1) < 1_000_000_000
    decreases 9 - digits
  {
    assert Pow10(9) == 1_000_000_000;
    if digits == 9 {
      assert PadRight(v, digits + 1) == v;
    } else {
      var p := Pow10(9 - digits - 1);
      Pow10Monotone(digits + 1, 9);
      assert v * 10 < Pow10(digits + 1);
      assert PadRight(v, digits + 1) == PadRight(v * 10, digits + 2);
      PadRightValue(v * 10, digits + 1);
      assert Pow10(9 - digits) == 10 * p;
      MulAssoc(v, 10, p);
    }
  }

  /** The fraction of a timestamp in nanoseconds: its decimal value scaled to nine digits. */
  lemma FractionNanos(s: seq<byte>)
    requires FractionFlat(s).Ok? && StartsWith(s, DOT)
    ensures var ds := DigitValues(s[1..][..SpanOf(s[1..], Digit)]);
            && 1 <= |ds| <= 9
            && FractionFlat(s).value == Decimal(ds) * Pow10(9 - |ds|)
            && 0 <= FractionFlat(s).value < 1_000_000_000
  {
    var t := s[1..];
    var k := SpanOf(t, Digit);
    SpanOfBytes(t, Digit);
    var ds := DigitValues(t[..k]);
    assert DigitsFlat(t).Ok? && DigitsFlat(t).value == ds;
    DigitValuesRange(t[..k]);
    Acc32Small(ds);
    PadRightValue(Acc32(0, ds), |ds|);
  }

  /**
   * `parseTs` after the year: `-MM-DDThh:mm:ss[.fraction]zone`, then
   * `OffsetDateTime.of`. `Miss` is `parseTs` returning false.
   */
  function DateFlat(year: int, s: seq<byte>): (r: Lexed<DateTime>)
    ensures r.Thrown? ==> r.e == InvalidDateTime
  {
    match SepDigitsFlat(s, DASH)
    case Exhausted => Exhausted
    case Thrown(e) => Thrown(e)
    case Miss(rest) => Miss(rest)
    case Ok(mo, s1) =>
      match SepDigitsFlat(s1, DASH)
      case Exhausted => Exhausted
      case Thrown(e) => Thrown(e)
      case Miss(rest) => Miss(rest)
      case Ok(d, s2) =>
        match SepDigitsFlat(s2, UPPER_T)
        case Exhausted => Exhausted
        case Thrown(e) => Thrown(e)
        case Miss(rest) => Miss(rest)
        case Ok(h, s3) =>
          match SepDigitsFlat(s3, COLON)
          case Exhausted => Exhausted
          case Thrown(e) => Thrown(e)
          case Miss(rest) => Miss(rest)
          case Ok(mi, s4) =>
            match SepDigitsFlat(s4, COLON)
            case Exhausted => Exhausted
            case Thrown(e) => Thrown(e)
            case Miss(rest) => Miss(rest)
            case Ok(sec, s5) =>
              var clock := Clock(Acc32(0, h), Acc32(0, mi), Acc32(0, sec));
              ClockFlat(year, Acc32(0, mo), Acc32(0, d), clock, s5)
  }

  datatype Clock = Clock(hour: int, minute: int, second: int)

  /** The fraction and zone after the seconds, then the construction of the date-time. */
  function ClockFlat(year: int, month: int, day: int, clock: Clock, s: seq<byte>): (r: Lexed<DateTime>)
    ensures r.Thrown? ==> r.e == InvalidDateTime
  {
    match FractionFlat(s)
    case Exhausted => Exhausted
    case Thrown(e) => Thrown(e)
    case Miss(rest) => Miss(rest)
    case Ok(nanos, s1) =>
      match ZoneFlat(s1)
      case Exhausted => Exhausted
      case Thrown(e) => Thrown(e)
      case Miss(rest) => Miss(rest)
      case Ok(offset, s2) =>
        match DateTimeOf(year, month, day, clock.hour, clock.minute, clock.second, nanos, offset)
        case None => Thrown(InvalidDateTime)
        case Some(t) => Ok(t, s2)
  }

  /**
   * `parseTs()`: a full timestamp, the nil value `-` (no timestamp), or a
   * miss: any other token is read up to the next space and fails.
   */
  function TsFlat(s: seq<byte>): (r: Lexed<Option<DateTime>>)
    ensures r.Thrown? ==> r.e == InvalidDateTime
  {
    match DigitsFlat(s)
    case Exhausted => Exhausted
    case Thrown(e) => Thrown(e)
    case Miss(_) =>
      (match NilFlat(s)
       case Ok(nil, rest) => if nil then Ok(None, rest) else Miss(rest)
       case _ => Exhausted)
    case Ok(y, rest) =>
      match DateFlat(Acc32(0, y), rest)
      case Exhausted => Exhausted
      case Thrown(e) => Thrown(e)
      case Miss(rest') => Miss(rest')
      case Ok(t, rest') => Ok(Some(t), rest')
  }

  // ---------------------------------------------------------------------------------------------
  // Structured data

  /**
   * The quoted PARAM-VALUE loop: read up to `"` (or a newline), drop that
   * byte, decode; an unpaired segment means the `"` was escaped, so append
   * it and read on. `acc` is the text decoded so far.
   */
  function QuotedFlat(acc: string, s: seq<byte>): (r: Lexed<string>)
    ensures r.Ok? || r.Exhausted?
    ensures r.Ok? ==> |r.rest| < |s| && IsSuffix(r.rest, s)
    decreases |s|
  {
    match TokenFlat(s, Quote)
    case Ok(token, rest) =>
      SuffixAfter(token, rest);
      var text := Latin1(token);
      var acc' := acc + Unescape(text);
      if !Unpaired(text) then Ok(acc', rest[1..])
      else QuotedFlat(acc' + "\"", rest[1..])
    case _ => Exhausted
  }

  /** One round of the quoted PARAM-VALUE loop, given the segment it reads. */
  lemma QuotedRound(acc: string, s: seq<byte>, token: seq<byte>, rest: seq<byte>)
    requires TokenFlat(s, Quote) == Ok(token, rest)
    ensures var text := Latin1(token);
            QuotedFlat(acc, s) == if !Unpaired(text) then Ok(acc + Unescape(text), rest[1..])
                                  else QuotedFlat(acc + Unescape(text) + "\"", rest[1..])
  {
  }

  /** A PARAM-VALUE after `=`: quoted, or a bare token up to a space or `]`. */
  function ValueFlat(s: seq<byte>): (r: Lexed<string>)
    ensures r.Ok? || r.Exhausted?
    ensures r.Ok? ==> IsSuffix(r.rest, s)
  {
    if StartsWith(s, QUOTE) then QuotedFlat("", s[1..])
    else match TokenFlat(s, SpaceOrClose)
      case Ok(token, rest) => Ok(Latin1(token), rest)
      case _ => Exhausted
  }

  /** A value that starts with `"` is read by the quoted loop. */
  lemma ValueQuoted(s: seq<byte>)
    requires StartsWith(s, QUOTE)
    ensures ValueFlat(s) == QuotedFlat("", s[1..])
  {
  }

  /** The text of a token up to a byte of class `c`, as SD-IDs and PARAM-NAMEs are read. */
  function KeyFlat(s: seq<byte>, c: ByteClass): (r: Lexed<string>)
    ensures r.Ok? || r.Exhausted?
    ensures r.Ok? ==> IsSuffix(r.rest, s) && r.rest != [] && Stops(c, r.rest[0])
  {
    match TokenFlat(s, c)
    case Ok(token, rest) => Ok(Latin1(token), rest)
    case _ => Exhausted
  }

  /** An SD-ID: the token up to the next space (not `]`), then `skip()`. */
  function SdIdFlat(s: seq<byte>): (r: Lexed<string>)
    ensures r.Ok? || r.Exhausted?
    ensures r.Ok? ==> IsSuffix(r.rest, s)
  {
    match KeyFlat(s, Space)
    case Ok(id, s1) =>
      (match SkipFlat(s1, Space)
       case Ok(_, s2) => Ok(id, s2)
       case _ => Exhausted)
    case _ => Exhausted
  }

  /**
   * One SD-PARAM of element `id`: the PARAM-NAME up to `=` or `]`, the `=`,
   * and the value, stored under `(id, name)` (a repeated name overwrites).
   */
  function ParamFlat(f: Fields, id: string, s: seq<byte>): (r: Flat)
    ensures !r.Raise?
    ensures r.Ret? ==> !r.ok && r.f == f
    ensures r.Cont? ==> |r.rest| < |s| && r.f == f.(sd := r.f.sd)
  {
    match KeyFlat(s, EqualsOrClose)
    case Ok(key, s1) => AssignFlat(f, id, key, s1)
    case _ => ReachedEnd
  }

  /** After the PARAM-NAME `key`: `=` and the value, or a failed record without `=`. */
  function AssignFlat(f: Fields, id: string, key: string, s: seq<byte>): (r: Flat)
    ensures !r.Raise?
    ensures r.Ret? ==> !r.ok && r.f == f && r.rest == s
    ensures r.Cont? ==> |r.rest| < |s| && (id, key) in r.f.sd
                        && r.f == f.(sd := f.sd[(id, key) := r.f.sd[(id, key)]])
  {
    if !StartsWith(s, EQUALS) then Ret(false, f, s)
    else match ValueFlat(s[1..])
      case Ok(value, rest) => Cont(f.(sd := f.sd[(id, key) := value]), rest)
      case _ => ReachedEnd
  }

  /** The loop over SD elements: `[` opens one; anything else ends the structured data. */
  function SdFlat(f: Fields, s: seq<byte>): (r: Flat)
    ensures !r.Cont? && !r.Raise?
    decreases |s|, 1
  {
    if !StartsWith(s, LBRACKET) then
      match SkipFlat(s, Space)
      case Ok(_, rest) => Ret(true, f, rest)
      case _ => ReachedEnd
    else match SdIdFlat(s[1..])
      case Ok(id, s1) => ParamsFlat(f, id, s1)
      case _ => ReachedEnd
  }

  /** The loop over the SD-PARAMs of element `id`: `]` closes it, anything else is a parameter. */
  function ParamsFlat(f: Fields, id: string, s: seq<byte>): (r: Flat)
    ensures !r.Cont? && !r.Raise?
    decreases |s|, 0
  {
    if StartsWith(s, RBRACKET) then SdFlat(f, s[1..])
    else match ParamFlat(f, id, s)
      case Cont(f1, s1) => ParamsFlat(f1, id, s1)
      case r => r
  }

  // ---------------------------------------------------------------------------------------------
  // The header fields

  /** `skip()` whose answer is ignored. */
  function SkipThen(f: Fields, s: seq<byte>): (r: Flat)
    ensures r.Cont? || r.ReachedEnd?
    ensures r.Cont? ==> r.f == f && IsSuffix(r.rest, s)
  {
    match SkipFlat(s, Space)
    case Ok(_, rest) => Cont(f, rest)
    case _ => ReachedEnd
  }

  /** `<PRI>`, the version `1` and any spaces after it, from a reset record. */
  function PriFlat(s: seq<byte>): (r: Flat)
    ensures !r.Raise?
    ensures r.Cont? ==> r.f == Reset.(pri := r.f.pri)
  {
    if !StartsWith(s, LT) then Ret(false, Reset, s) else PriValueFlat(s[1..])
  }

  /** The PRI digits after `<`, accumulated in `Int` arithmetic. */
  function PriValueFlat(s: seq<byte>): (r: Flat)
    ensures !r.Raise?
    ensures r.Cont? ==> r.f == Reset.(pri := r.f.pri)
  {
    match DigitsFlat(s)
    case Ok(ds, rest) => VersionFlat(Reset.(pri := Acc32(0, ds)), rest)
    case Miss(rest) => Ret(false, Reset, rest)
    case _ => ReachedEnd
  }

  /** `>`, then the version `1`, then `skip()`, which fails only at the end of the stream. */
  function VersionFlat(f: Fields, s: seq<byte>): (r: Flat)
    ensures !r.Raise?
    ensures r.Cont? || r.Ret? ==> r.f == f
  {
    if !StartsWith(s, GT) then Ret(false, f, s)
    else if !StartsWith(s[1..], ONE) then Ret(false, f, s[1..])
    else match SkipFlat(s[2..], Space)
      case Ok(found, rest) => if found then Cont(f, rest) else Ret(false, f, rest)
      case _ => ReachedEnd
  }

  /**
   * The timestamp field: `parseTs()` then `skip()`; a malformed timestamp is
   * skipped, not an error, and leaves the field as it was.
   */
  function TimestampFlat(f: Fields, s: seq<byte>): (r: Flat)
    ensures r.Raise? ==> r.e == InvalidDateTime
    ensures !r.Ret?
  {
    match TsFlat(s)
    case Ok(t, rest) => SkipThen(f.(ts := t), rest)
    case Miss(rest) => SkipThen(f, rest)
    case Thrown(e) => Raise(e)
    case Exhausted => ReachedEnd
  }

  /** HOSTNAME, APP-NAME and MSGID are read the same way, each into its own field. */
  datatype Slot = HostSlot | AppSlot | MsgIdSlot

  function Store(f: Fields, slot: Slot, v: Option<string>): Fields
  {
    match slot
    case HostSlot => f.(host := v)
    case AppSlot => f.(app := v)
    case MsgIdSlot => f.(msgid := v)
  }

  /** The token up to the next space: its text, `None` for the nil value. */
  function TokenFieldFlat(s: seq<byte>): (r: Lexed<Option<string>>)
    ensures r.Ok? || r.Exhausted?
  {
    match TokenFlat(s, Space)
    case Ok(token, rest) => Ok(Name(token), rest)
    case _ => Exhausted
  }

  /** A HOSTNAME, APP-NAME or MSGID field, then `skip()`. */
  function NameFieldFlat(f: Fields, slot: Slot, s: seq<byte>): (r: Flat)
    ensures r.Cont? || r.ReachedEnd?
  {
    match TokenFieldFlat(s)
    case Ok(v, rest) => SkipThen(Store(f, slot, v), rest)
    case _ => ReachedEnd
  }

  /** PROCID: a decimal `Long`, or the nil value; any other token fails the record. */
  function ProcFlat(f: Fields, s: seq<byte>): (r: Flat)
    ensures !r.Raise?
    ensures r.Ret? ==> !r.ok && r.f == f
  {
    match ProcValueFlat(s)
    case Ok(v, rest) => SkipThen(f.(proc := v), rest)
    case Miss(rest) => Ret(false, f, rest)
    case _ => ReachedEnd
  }

  /** The PROCID token: digits folded in `Long` arithmetic, `None` for the nil value, a miss otherwise. */
  function ProcValueFlat(s: seq<byte>): (r: Lexed<Option<int>>)
    ensures !r.Thrown?
  {
    match DigitsFlat(s)
    case Ok(ds, rest) => Ok(Some(Acc64(0, ds)), rest)
    case Miss(_) =>
      (match NilFlat(s)
       case Ok(nil, rest) => if nil then Ok(None, rest) else Miss(rest)
       case _ => Exhausted)
    case _ => Exhausted
  }

  /** `parse5424()` on the unread bytes `s`. */
  function ParseFlat(s: seq<byte>): (r: Flat)
    ensures !r.Cont?
    ensures r.Raise? ==> r.e == InvalidDateTime
  {
    match PriFlat(s)
    case Cont(f, rest) => AfterPri(f, rest)
    case r => r
  }

  /** The fields after the version: timestamp, HOSTNAME, APP-NAME, PROCID, MSGID, structured data. */
  function AfterPri(f: Fields, s: seq<byte>): (r: Flat)
    ensures !r.Cont?
    ensures r.Raise? ==> r.e == InvalidDateTime
  {
    var t := TimestampFlat(f, s);
    if !t.Cont? then t else
    var h := NameFieldFlat(t.f, HostSlot, t.rest);
    if !h.Cont? then h else
    var a := NameFieldFlat(h.f, AppSlot, h.rest);
    if !a.Cont? then a else
    AfterApp(a.f, a.rest)
  }

  /** The fields after APP-NAME: PROCID, MSGID, structured data. */
  function AfterApp(f: Fields, s: seq<byte>): (r: Flat)
    ensures !r.Cont?
    ensures r.Raise? ==> r.e == InvalidDateTime
  {
    var pr := ProcFlat(f, s);
    if !pr.Cont? then pr else
    var m := NameFieldFlat(pr.f, MsgIdSlot, pr.rest);
    if !m.Cont? then m else
    SdFlat(m.f, m.rest)
  }
}
