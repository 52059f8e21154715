/**
 * The two older copies of `Progressive2`: `rfc5424.Progressive2` (here
 * `Older`) and `exporter.syslog.Progressive2` (here `Oldest`). They share
 * the canonical parser's scanning loops but differ in what they reset, how
 * `readDigits` and `readUntil` end, what `host()`/`app()` answer and how the
 * message is read.
 *
 * They are stated on the unread bytes of a stream that arrives as one chunk
 * and then ends: every `receive()` after that chunk fails. On such a stream
 * each function below is what the Kotlin code does, including what it does
 * at the end of the stream.
 */
module Rfc5424Legacy {
  import opened Bytes
  import opened Scan
  import opened SdValue
  import opened Rfc5424Severity
  import opened Rfc5424Facility
  import opened Rfc5424Codes
  import opened Rfc5424Flat
  import opened Rfc5424

  datatype Variant =
    | Older   // rfc5424.Progressive2: 64 MiB internal buffer, byte accounting
    | Oldest  // exporter.syslog.Progressive2: 2 KiB scratch buffer, cache-backed host()/app()

  /** Capacity of the buffer a token is gathered in when the chunk has no stop byte. */
  function Capacity(v: Variant): nat
  {
    match v
    case Older => 64 * 1024 * 1024
    case Oldest => 2 * 1024
  }

  /**
   * What `tmp` designates: a view on the chunk (its bytes between position and
   * limit), or the internal buffer left unflipped after the end of the stream,
   * `written` bytes in, so that what it presents is the rest of its capacity.
   * On a one-chunk stream every view is the chunk's single duplicate `dup`,
   * so moving the duplicate's position and limit moves what a `View` shows.
   */
  datatype Tmp = View(bytes: seq<byte>) | Unflipped(written: nat)

  /** `tmp` once the chunk's duplicate is set to show `r`: a view follows it, the internal buffer does not. */
  function Repositioned(tmp: Tmp, r: seq<byte>): (t: Tmp)
    ensures t.View? <==> tmp.View?
    ensures t.View? ==> t.bytes == r
    ensures t.Unflipped? ==> t == tmp
  {
    if tmp.View? then View(r) else tmp
  }

  /** The number of bytes `tmp.remaining()` reports. */
  function Remaining(v: Variant, t: Tmp): nat
  {
    match t
    case View(b) => |b|
    case Unflipped(w) => if w <= Capacity(v) then Capacity(v) - w else 0
  }

  /** The single-slot (bytes, text) cache of HOSTNAME or APP-NAME. */
  type Cache = (seq<byte>, Option<string>)

  /**
   * The parser's fields. `ts` holds the token handed to `OffsetDateTime.parse`.
   * `Oldest` has no `host` and `app` fields (they are locals of `parse5424`),
   * so there they stay `None`.
   */
  datatype State = State(pri: int, ts: Option<seq<byte>>, host: Option<string>, app: Option<string>,
                         proc: Option<int>, msgid: Option<string>,
                         cachedHost: Cache, cachedApp: Cache,
                         keys: map<seq<byte>, string>, sd: map<(string, string), string>,
                         tmp: Tmp)

  /** The fields of a freshly constructed parser. */
  const Initial := State(-1, None, None, None, None, None, (NIL, None), (NIL, None), map[], map[], Unflipped(0))

  /** The caches and the interned keys hold decoded text, as in the canonical parser. */
  predicate Sound(st: State)
  {
    CacheOk(st.cachedHost) && CacheOk(st.cachedApp) && KeysOk(st.keys)
  }

  // ---------------------------------------------------------------------------------------------
  // The scanning primitives on the last chunk

  /** What a primitive answers and the bytes left unread after it. */
  datatype Moved = Moved(ok: bool, rest: seq<byte>)

  /**
   * `skip(c)`: pass over the bytes of class `c`. When the chunk runs out the
   * failing `receive()` leaves `startIndex` where it was: nothing is consumed.
   */
  function Skip(r: seq<byte>, c: ByteClass): (res: Moved)
    ensures res.ok ==> && IsSuffix(res.rest, r) && res.rest != [] && !In(c, res.rest[0])
                       && forall i :: 0 <= i < |r| - |res.rest| ==> In(c, r[i])
    ensures !res.ok ==> res.rest == r && forall i :: 0 <= i < |r| ==> In(c, r[i])
  {
    var k := SpanOf(r, c);
    SpanOfBytes(r, c);
    if k < |r| then Moved(true, r[k..]) else Moved(false, r)
  }

  /** `skipPrefix(b)`: consume `b` if it is the next byte. */
  function SkipPrefix(r: seq<byte>, b: byte): (res: Moved)
    ensures res.ok <==> r != [] && r[0] == b
    ensures res.rest == if res.ok then r[1..] else r
  {
    if r != [] && r[0] == b then Moved(true, r[1..]) else Moved(false, r)
  }

  /** `skipByte()`: consume one byte, false at the end of the stream. */
  function SkipByte(r: seq<byte>): (res: Moved)
    ensures res.ok <==> r != []
    ensures res.rest == if res.ok then r[1..] else r
  {
    if r == [] then Moved(false, r) else Moved(true, r[1..])
  }

  /** `readDigits(block)`: the digit values handed to `block`, and whether a non-digit ended them. */
  datatype DigitRun = DigitRun(ok: bool, digits: seq<int>, rest: seq<byte>)

  /**
   * `readDigits`: succeeds at the first non-digit, even with no digit before
   * it; at the end of the stream it fails, after handing every digit to
   * `block`, with the cursor where it started.
   */
  function Digits(r: seq<byte>): (res: DigitRun)
    ensures res.ok ==> && |res.digits| <= |r| && r == r[..|res.digits|] + res.rest
                       && res.rest != [] && !IsDigit(res.rest[0])
                       && res.digits == DigitValues(r[..|res.digits|])
    ensures !res.ok ==> res.rest == r && res.digits == DigitValues(r)
                        && forall i :: 0 <= i < |r| ==> IsDigit(r[i])
  {
    var k := SpanOf(r, Digit);
    SpanOfBytes(r, Digit);
    if k < |r| then DigitRun(true, DigitValues(r[..k]), r[k..])
    else
      assert r[..k] == r;
      DigitRun(false, DigitValues(r), r)
  }

  /** How `readUntil` ends, the `tmp` it leaves, and the unread bytes. */
  datatype Read = Read(out: Outcome, tmp: Tmp, rest: seq<byte>)

  /**
   * `readUntil(c, useInternalBuffer)` on the last chunk. A stop byte (of class
   * `c` or a newline) in the chunk: `tmp` views the bytes before it. Otherwise
   * the stream ends inside the token and `readUntil` answers false:
   *  - with nothing left to read `Older` leaves `tmp` as it was;
   *  - otherwise the duplicate is first set to show the rest of the chunk, so a
   *    `tmp` that is a view now shows it; `Older` without the internal buffer
   *    then consumes the chunk;
   *  - else the rest is put into the internal buffer (an overflow if it does
   *    not fit, which leaves the duplicate showing the rest), which `tmp` then
   *    designates unflipped, and the cursor stays where it was. `Oldest` has no
   *    `useInternalBuffer` parameter.
   */
  function ReadUntil(v: Variant, r: seq<byte>, c: ByteClass, useInternalBuffer: bool, tmp: Tmp): (res: Read)
    ensures res.out.Threw? <==> StopIndex(r, c) == |r| && |r| > Capacity(v)
                                && (v == Oldest || (r != [] && useInternalBuffer))
    ensures res.out.Threw? ==> res.out.e == BufferOverflow && res.tmp == Repositioned(tmp, r) && res.rest == r
    ensures res.out == Returned(true) <==> StopIndex(r, c) < |r|
    ensures res.out == Returned(true) ==>
              && res.tmp == View(r[..StopIndex(r, c)]) && res.rest == r[StopIndex(r, c)..]
              && r == r[..StopIndex(r, c)] + res.rest && Stops(c, res.rest[0])
    ensures res.out == Returned(false) ==> res.rest == r || (v == Older && !useInternalBuffer && res.rest == [])
    ensures res.out == Returned(false) && v == Older && !useInternalBuffer ==>
              res.tmp == (if r == [] then tmp else Repositioned(tmp, r))
  {
    var k := StopIndex(r, c);
    SpanOfBytes(r, Token(c));
    if v == Older && r == [] then Read(Returned(false), tmp, r)
    else if k < |r| then Read(Returned(true), View(r[..k]), r[k..])
    else if v == Older && !useInternalBuffer then Read(Returned(false), Repositioned(tmp, r), [])
    else if |r| > Capacity(v) then Read(Threw(BufferOverflow), Repositioned(tmp, r), r)
    else Read(Returned(false), Unflipped(|r|), r)
  }

  // ---------------------------------------------------------------------------------------------
  // parse5424

  /** Where a step of `parse5424` leaves the parser: go on, or return / throw. */
  datatype Step = Go(st: State, rest: seq<byte>) | Done(out: Outcome, st: State, rest: seq<byte>)

  /**
   * PRI and VERSION: `priValue = 0`, `<`, the digits folded into `priValue`
   * in `Int` arithmetic (none at all is accepted), `>`, `1`, then `skip()`.
   * Nothing but `priValue` changes.
   */
  function PriStep(st: State, r: seq<byte>): (res: Step)
    ensures res.st == st.(pri := res.st.pri)
    ensures res.Go? ==> IsSuffix(res.rest, r) && |res.rest| + 3 <= |r|
    ensures r == [] || r[0] != LT ==> res == Done(Returned(false), st.(pri := 0), r)
  {
    var open := SkipPrefix(r, LT);
    if !open.ok then Done(Returned(false), st.(pri := 0), open.rest) else
    var d := Digits(open.rest);
    var st1 := st.(pri := Acc32(0, d.digits));
    if !d.ok then Done(Returned(false), st1, d.rest) else VersionStep(st1, d.rest)
  }

  /** `>`, the version `1`, then `skip()`; nothing in the fields changes. */
  function VersionStep(st: State, r: seq<byte>): (res: Step)
    ensures res.st == st
    ensures res.Go? ==> IsSuffix(res.rest, r) && |res.rest| + 2 <= |r|
  {
    var close := SkipPrefix(r, GT);
    if !close.ok then Done(Returned(false), st, close.rest) else
    var version := SkipPrefix(close.rest, ONE);
    if !version.ok then Done(Returned(false), st, version.rest) else
    var sk := Skip(version.rest, Space);
    if !sk.ok then Done(Returned(false), st, sk.rest) else Go(st, sk.rest)
  }

  /**
   * TIMESTAMP: the token up to a space; `-` is no timestamp, any other token
   * goes to `OffsetDateTime.parse`, which throws unless `accepts` holds of it.
   * Then `skip()`, whose answer is ignored.
   */
  function TsStep(v: Variant, accepts: seq<byte> -> bool, st: State, r: seq<byte>): (res: Step)
    ensures res.st == st.(ts := res.st.ts, tmp := res.st.tmp)
    ensures res.Done? ==> res.out != Returned(true) && res.st.ts == st.ts
    ensures res.Go? ==> IsSuffix(res.rest, r)
  {
    var rd := ReadUntil(v, r, Space, true, st.tmp);
    var st1 := st.(tmp := rd.tmp);
    if rd.out != Returned(true) then Done(rd.out, st1, rd.rest) else
    var token := rd.tmp.bytes;
    if token != NIL && !accepts(token) then Done(Threw(InvalidDateTime), st1, rd.rest) else
    Go(st1.(ts := if token == NIL then None else Some(token)), Skip(rd.rest, Space).rest)
  }

  /** HOSTNAME and APP-NAME, each with its own cache. */
  datatype NameSlot = HostName | AppName

  function CacheOf(st: State, slot: NameSlot): Cache
  {
    match slot
    case HostName => st.cachedHost
    case AppName => st.cachedApp
  }

  /**
   * HOSTNAME or APP-NAME: the token up to a space, resolved through the
   * slot's cache as in the canonical parser, then `skip()`. `Older` stores the
   * text in its field; in `Oldest` it is a local and only the cache keeps it.
   */
  function NameStep(v: Variant, st: State, slot: NameSlot, r: seq<byte>): (res: Step)
    requires Sound(st)
    ensures Sound(res.st)
    ensures res.Done? ==> res.out != Returned(true) && res.st == st.(tmp := res.st.tmp)
    ensures res.Go? ==> IsSuffix(res.rest, r)
    ensures res.Go? && slot == HostName ==>
              && res.st == st.(host := res.st.host, cachedHost := res.st.cachedHost, tmp := res.st.tmp)
              && (v == Oldest ==> res.st.host == st.host)
    ensures res.Go? && slot == AppName ==>
              && res.st == st.(app := res.st.app, cachedApp := res.st.cachedApp, tmp := res.st.tmp)
              && (v == Oldest ==> res.st.app == st.app)
    ensures res.Go? ==> res.st.tmp.View? &&
                        var token := res.st.tmp.bytes;
                        && Resolve(CacheOf(st, slot), token).1 == CacheOf(res.st, slot)
                        && (v == Older && slot == HostName ==> res.st.host == Name(token))
                        && (v == Older && slot == AppName ==> res.st.app == Name(token))
  {
    var rd := ReadUntil(v, r, Space, true, st.tmp);
    var st1 := st.(tmp := rd.tmp);
    if rd.out != Returned(true) then Done(rd.out, st1, rd.rest) else
    var resolved := Resolve(CacheOf(st, slot), rd.tmp.bytes);
    var st2 := match slot
      case HostName => st1.(cachedHost := resolved.1, host := if v == Older then resolved.0 else st.host)
      case AppName => st1.(cachedApp := resolved.1, app := if v == Older then resolved.0 else st.app);
    Go(st2, Skip(rd.rest, Space).rest)
  }

  /**
   * PROCID: `readDigits` into a `Long` (zero digits give 0 and consume
   * nothing); only if that runs into the end of the stream, a nil token; any
   * other outcome fails the record. Then `skip()`.
   */
  function ProcStep(v: Variant, st: State, r: seq<byte>): (res: Step)
    ensures res.st == st.(proc := res.st.proc, tmp := res.st.tmp)
    ensures res.Done? ==> res.out != Returned(true) && res.st.proc == st.proc
    ensures res.Go? ==> IsSuffix(res.rest, r)
  {
    var d := Digits(r);
    if d.ok then Go(st.(proc := Some(Acc64(0, d.digits))), Skip(d.rest, Space).rest) else
    var rd := ReadUntil(v, d.rest, Space, true, st.tmp);
    var st1 := st.(tmp := rd.tmp);
    if rd.out.Threw? then Done(rd.out, st1, rd.rest)
    else if rd.out == Returned(true) && rd.tmp.bytes == NIL then Go(st1.(proc := None), Skip(rd.rest, Space).rest)
    else Done(Returned(false), st1, rd.rest)
  }

  /** MSGID: the token up to a space, `-` for none, then `skip()`. */
  function MsgIdStep(v: Variant, st: State, r: seq<byte>): (res: Step)
    ensures res.st == st.(msgid := res.st.msgid, tmp := res.st.tmp)
    ensures res.Done? ==> res.out != Returned(true) && res.st.msgid == st.msgid
    ensures res.Go? ==> IsSuffix(res.rest, r) && res.st.tmp.View? && res.st.msgid == Name(res.st.tmp.bytes)
  {
    var rd := ReadUntil(v, r, Space, true, st.tmp);
    var st1 := st.(tmp := rd.tmp);
    if rd.out != Returned(true) then Done(rd.out, st1, rd.rest)
    else Go(st1.(msgid := Name(rd.tmp.bytes)), Skip(rd.rest, Space).rest)
  }

  /** The PARAM-VALUE read so far, or how reading it ended the record. */
  datatype Value = Got(text: string, tmp: Tmp, rest: seq<byte>) | Failed(out: Outcome, tmp: Tmp, rest: seq<byte>)

  /** One segment of a quoted PARAM-VALUE: the text up to `"`, then `skipByte()`. */
  function QuotedSegment(v: Variant, tmp: Tmp, r: seq<byte>): (res: Value)
    ensures res.Got? ==> |res.rest| < |r| && IsSuffix(res.rest, r) && res.tmp.View?
    ensures res.Failed? ==> res.out != Returned(true)
  {
    var rd := ReadUntil(v, r, Quote, true, tmp);
    if rd.out != Returned(true) then Failed(rd.out, rd.tmp, rd.rest) else
    SuffixAfter(rd.tmp.bytes, rd.rest);
    Got(Latin1(rd.tmp.bytes), rd.tmp, SkipByte(rd.rest).rest)
  }

  /**
   * The quoted PARAM-VALUE loop, as in the canonical parser: read up to `"`,
   * `skipByte()`, decode; an unpaired segment appends `"` and reads on.
   */
  function Quoted(v: Variant, tmp: Tmp, acc: string, r: seq<byte>): (res: Value)
    ensures res.Got? ==> |res.rest| < |r| && IsSuffix(res.rest, r) && res.tmp.View?
    ensures res.Failed? ==> res.out != Returned(true)
    decreases |r|
  {
    var seg := QuotedSegment(v, tmp, r);
    if seg.Failed? then seg else
    var acc' := acc + Unescape(seg.text);
    if !Unpaired(seg.text) then Got(acc', seg.tmp, seg.rest)
    else
      var res := Quoted(v, seg.tmp, acc' + "\"", seg.rest);
      if res.Got? then SuffixTrans(res.rest, seg.rest, r); res else res
  }

  /** After `=`: a quoted value, or a bare token up to a space or `]`. */
  function ParamValue(v: Variant, tmp: Tmp, r: seq<byte>): (res: Value)
    ensures res.Got? ==> IsSuffix(res.rest, r) && res.tmp.View?
    ensures res.Failed? ==> res.out != Returned(true)
  {
    var quote := SkipPrefix(r, QUOTE);
    if quote.ok then Quoted(v, tmp, "", quote.rest) else
    var rd := ReadUntil(v, r, SpaceOrClose, true, tmp);
    if rd.out != Returned(true) then Failed(rd.out, rd.tmp, rd.rest)
    else Got(Latin1(rd.tmp.bytes), rd.tmp, rd.rest)
  }

  /**
   * The SD-ELEMENT loop: `[`, the SD-ID (up to a space), `skip()`, the
   * parameters; anything but `[` ends the structured data with `skip()` and a
   * successful record. Only `sd`, `keys` and `tmp` change.
   */
  function Elements(v: Variant, st: State, r: seq<byte>): (res: Step)
    requires KeysOk(st.keys)
    ensures res.Done? && KeysOk(res.st.keys)
    ensures res.st == st.(sd := res.st.sd, keys := res.st.keys, tmp := res.st.tmp)
    ensures res.out == Returned(true) && st.tmp.View? ==> res.st.tmp.View?
    decreases |r|, 2
  {
    var open := SkipPrefix(r, LBRACKET);
    if !open.ok then Done(Returned(true), st, Skip(r, Space).rest) else Element(v, st, open.rest)
  }

  /** After `[`: the SD-ID up to a space, `skip()`, then the parameters. */
  function Element(v: Variant, st: State, r: seq<byte>): (res: Step)
    requires KeysOk(st.keys)
    ensures res.Done? && KeysOk(res.st.keys)
    ensures res.st == st.(sd := res.st.sd, keys := res.st.keys, tmp := res.st.tmp)
    ensures res.out == Returned(true) && st.tmp.View? ==> res.st.tmp.View?
    decreases |r|, 1
  {
    var rd := ReadUntil(v, r, Space, true, st.tmp);
    var st1 := st.(tmp := rd.tmp);
    if rd.out != Returned(true) then Done(rd.out, st1, rd.rest) else
    var id := Intern(st.keys, rd.tmp.bytes);
    Params(v, st1.(keys := id.1), id.0, Skip(rd.rest, Space).rest)
  }

  /**
   * One SD-PARAM of element `id`: a name, `=` and a value stored under
   * `(id, name)` (`Go`), or how reading it ended the record (`Done`).
   */
  function OneParam(v: Variant, st: State, id: string, r: seq<byte>): (res: Step)
    requires KeysOk(st.keys)
    ensures KeysOk(res.st.keys)
    ensures res.st == st.(sd := res.st.sd, keys := res.st.keys, tmp := res.st.tmp)
    ensures res.Go? ==> |res.rest| < |r| && res.st.tmp.View?
  {
    var rd := ReadUntil(v, r, EqualsOrClose, true, st.tmp);
    var st1 := st.(tmp := rd.tmp);
    if rd.out != Returned(true) then Done(rd.out, st1, rd.rest) else
    var key := Intern(st.keys, rd.tmp.bytes);
    Assign(v, st1.(keys := key.1), id, key.0, rd.rest)
  }

  /** After the PARAM-NAME `key`: `=` and the value, stored under `(id, key)`. */
  function Assign(v: Variant, st: State, id: string, key: string, r: seq<byte>): (res: Step)
    ensures res.st == st.(sd := res.st.sd, tmp := res.st.tmp)
    ensures res.Go? ==> |res.rest| < |r| && res.st.tmp.View?
  {
    var eq := SkipPrefix(r, EQUALS);
    if !eq.ok then Done(Returned(false), st, eq.rest) else
    match ParamValue(v, st.tmp, eq.rest)
    case Failed(out, tmp, rest) => Done(out, st.(tmp := tmp), rest)
    case Got(text, tmp, rest) => Go(st.(tmp := tmp, sd := st.sd[(id, key) := text]), rest)
  }

  /** The SD-PARAMs of element `id`: `]` closes it; otherwise one parameter and on. */
  function Params(v: Variant, st: State, id: string, r: seq<byte>): (res: Step)
    requires KeysOk(st.keys)
    ensures res.Done? && KeysOk(res.st.keys)
    ensures res.st == st.(sd := res.st.sd, keys := res.st.keys, tmp := res.st.tmp)
    ensures res.out == Returned(true) && st.tmp.View? ==> res.st.tmp.View?
    decreases |r|, 0
  {
    var close := SkipPrefix(r, RBRACKET);
    if close.ok then Elements(v, st, close.rest) else
    var p := OneParam(v, st, id, r);
    if p.Done? then p else Params(v, p.st, id, p.rest)
  }

  /**
   * `parse5424()`: PRI, TIMESTAMP, HOSTNAME, APP-NAME, PROCID, MSGID, then
   * `values.clear()` and the structured data. A step that fails leaves every
   * later field as the previous record left it.
   */
  function Parse(v: Variant, accepts: seq<byte> -> bool, st: State, r: seq<byte>): (res: Step)
    requires Sound(st)
    ensures res.Done? && Sound(res.st)
    ensures res.out == Returned(true) ==> res.st.tmp.View?
  {
    var p := PriStep(st, r);
    if p.Done? then p else
    var t := TsStep(v, accepts, p.st, p.rest);
    if t.Done? then t else
    var h := NameStep(v, t.st, HostName, t.rest);
    if h.Done? then h else
    var a := NameStep(v, h.st, AppName, h.rest);
    if a.Done? then a else
    AfterApp(v, a.st, a.rest)
  }

  /** PROCID, MSGID and the structured data. */
  function AfterApp(v: Variant, st: State, r: seq<byte>): (res: Step)
    requires Sound(st)
    ensures res.Done? && Sound(res.st)
    ensures res.out == Returned(true) ==> res.st.tmp.View?
  {
    var pr := ProcStep(v, st, r);
    if pr.Done? then pr else
    var m := MsgIdStep(v, pr.st, pr.rest);
    if m.Done? then m else
    Elements(v, m.st.(sd := map[]), m.rest)
  }

  // ---------------------------------------------------------------------------------------------
  // The getters that differ

  /** `host()`: the field in `Older`, the cache slot in `Oldest`. */
  function Host(v: Variant, st: State): Option<string>
  {
    if v == Older then st.host else st.cachedHost.1
  }

  /** `app()`: the field in `Older`, the cache slot in `Oldest`. */
  function App(v: Variant, st: State): Option<string>
  {
    if v == Older then st.app else st.cachedApp.1
  }

  // ---------------------------------------------------------------------------------------------
  // Reading the message

  /** A message reader's answer and the unread bytes after it. */
  datatype Message<T> = Message(value: Option<T>, rest: seq<byte>)

  /**
   * `readMessageBytes()` (`Older`): the bytes up to the next newline, which is
   * consumed; null when the stream ends first.
   */
  function ReadMessageBytes(tmp: Tmp, r: seq<byte>): (res: Result<Message<seq<byte>>>)
    ensures var n := StopIndex(r, Newline);
            && (res.Failure? <==> n == |r| && |r| > Capacity(Older))
            && (res.Success? && n < |r| ==> res.value == Message(Some(r[..n]), r[n + 1..]) && r[n] == NL)
            && (res.Success? && n == |r| ==> res.value == Message(None, r))
  {
    var rd := ReadUntil(Older, r, Newline, true, tmp);
    SpanOfBytes(r, Token(Newline));
    if rd.out.Threw? then Failure(rd.out.e)
    else if rd.out == Returned(false) then Success(Message(None, rd.rest))
    else Success(Message(Some(rd.tmp.bytes), SkipByte(rd.rest).rest))
  }

  /** `readMessageString()` (`Older`): the same message decoded to text. */
  function ReadMessageString(tmp: Tmp, r: seq<byte>): (res: Result<Message<string>>)
    ensures var n := StopIndex(r, Newline);
            && (res.Failure? <==> n == |r| && |r| > Capacity(Older))
            && (res.Success? && n < |r| ==> res.value == Message(Some(Latin1(r[..n])), r[n + 1..]))
            && (res.Success? && n == |r| ==> res.value == Message(None, r))
  {
    match ReadMessageBytes(tmp, r)
    case Failure(e) => Failure(e)
    case Success(m) => Success(Message(if m.value.Some? then Some(Latin1(m.value.value)) else None, m.rest))
  }

  /** `readMessage()` (`Oldest`): the text up to the next newline, which is consumed; null when the stream ends first. */
  function ReadMessage(r: seq<byte>): (res: Result<Message<string>>)
    ensures var n := StopIndex(r, Newline);
            && (res.Failure? <==> n == |r| && |r| > Capacity(Oldest))
            && (res.Success? && n < |r| ==> res.value == Message(Some(Latin1(r[..n])), r[n + 1..]) && r[n] == NL)
            && (res.Success? && n == |r| ==> res.value == Message(None, r))
  {
    var rd := ReadUntil(Oldest, r, Newline, true, Unflipped(0));
    SpanOfBytes(r, Token(Newline));
    if rd.out.Threw? then Failure(rd.out.e)
    else if rd.out == Returned(false) then Success(Message(None, rd.rest))
    else Success(Message(Some(Latin1(rd.tmp.bytes)), SkipByte(rd.rest).rest))
  }

  /**
   * `readMessageAvailable()` (`Older`): `readUntil` without the internal
   * buffer, then `tmp` if it has bytes, else consume the newline if one was
   * found. When the chunk has no newline, `tmp` is not reassigned: a view
   * follows the duplicate to the rest of the chunk, which is consumed; the
   * internal buffer, or a view when nothing is left to read, is answered as it
   * was.
   */
  function ReadMessageAvailable(tmp: Tmp, r: seq<byte>): (res: (Option<Tmp>, Tmp, seq<byte>))
    ensures var n := StopIndex(r, Newline);
            && (0 < n < |r| ==> res == (Some(View(r[..n])), View(r[..n]), r[n..]))
            && (0 == n < |r| ==> res == (None, View([]), r[1..]))
            && (n == |r| && r != [] && tmp.View? ==> res == (Some(View(r)), View(r), []))
            && (n == |r| && (r == [] || tmp.Unflipped?) ==>
                  res.1 == tmp && res.2 == [] && res.0 == if Remaining(Older, tmp) > 0 then Some(tmp) else None)
  {
    var rd := ReadUntil(Older, r, Newline, false, tmp);
    SpanOfBytes(r, Token(Newline));
    if Remaining(Older, rd.tmp) > 0 then (Some(rd.tmp), rd.tmp, rd.rest)
    else if rd.out == Returned(true) then (None, rd.tmp, SkipByte(rd.rest).rest)
    else (None, rd.tmp, rd.rest)
  }

  /**
   * `skipMessage()`: pass over the bytes up to a newline, then `skipPrefix('\n')`
   * (`Older`) or an unconditional `skipByte()` (`Oldest`).
   */
  function SkipMessage(v: Variant, r: seq<byte>): (rest: seq<byte>)
    ensures var m := SpanOf(r, NotNewline);
            && (m < |r| ==> r[m] == NL && rest == r[m + 1..])
            && (m == |r| && v == Older ==> rest == r)
            && (m == |r| && v == Oldest ==> rest == if r == [] then [] else r[1..])
  {
    var sk := Skip(r, NotNewline);
    SpanOfBytes(r, NotNewline);
    if v == Older then SkipPrefix(sk.rest, NL).rest else SkipByte(sk.rest).rest
  }

  // ---------------------------------------------------------------------------------------------
  // The byte accounting of `Older`

  /**
   * The cursor fields of `Older` that `bytesConsumed()` reads, over a channel
   * of chunks each starting at position 0. `receive()` adds the span of the
   * chunk in hand to the running total before it asks the channel, so the
   * total grows also when the channel answers null and the chunk stays.
   */
  class Accounting {
    var chunks: seq<seq<byte>>  // what the channel still holds
    var current: seq<byte>
    var bytesConsumedTotal: int
    var firstStartIndex: int
    var startIndex: int
    var endIndex: int

    ghost predicate Valid()
      reads this
    {
      0 <= firstStartIndex <= startIndex <= endIndex == |current|
    }

    constructor (data: seq<seq<byte>>)
      ensures Valid() && chunks == data && current == [] && BytesConsumed() == 0
    {
      chunks := data;
      current := [];
      bytesConsumedTotal, firstStartIndex, startIndex, endIndex := 0, 0, 0, 0;
    }

    /** `bytesConsumed()`. */
    function BytesConsumed(): int
      reads this
    {
      bytesConsumedTotal + startIndex - firstStartIndex
    }

    /**
     * `receive()`. After a chunk, the count has passed over the rest of the
     * previous one; after the end of the stream, it has grown by the whole
     * chunk still in hand.
     */
    method Receive() returns (ok: bool)
      requires Valid()
      modifies this
      ensures Valid()
      ensures ok <==> old(chunks) != []
      ensures ok ==> && current == old(chunks[0]) && chunks == old(chunks[1..])
                     && startIndex == 0 && endIndex == |current|
                     && BytesConsumed() == old(BytesConsumed()) + old(endIndex - startIndex)
      ensures !ok ==> && current == old(current) && chunks == []
                      && startIndex == old(startIndex) && endIndex == old(endIndex)
                      && firstStartIndex == old(firstStartIndex)
                      && BytesConsumed() == old(BytesConsumed()) + old(endIndex - firstStartIndex)
    {
      bytesConsumedTotal := bytesConsumedTotal + endIndex - firstStartIndex;
      if chunks == [] {
        return false;
      }
      current, chunks := chunks[0], chunks[1..];
      startIndex, endIndex, firstStartIndex := 0, |current|, 0;
      ok := true;
    }

    /** `startIndex = i`: the bytes of the chunk before `i` are consumed. */
    method Advance(i: int)
      requires Valid() && startIndex <= i <= endIndex
      modifies this`startIndex
      ensures Valid() && startIndex == i
      ensures BytesConsumed() == old(BytesConsumed()) + (i - old(startIndex))
    {
      startIndex := i;
    }

    /**
     * Two reads that run into the end of the stream, as a caller that retries
     * does: the count grows by the whole chunk in hand each time, though no
     * byte was consumed.
     */
    method RetryAtEnd() returns (first: bool, second: bool)
      requires Valid() && chunks == []
      modifies this
      ensures Valid() && !first && !second && current == old(current) && startIndex == old(startIndex)
      ensures BytesConsumed() == old(BytesConsumed()) + 2 * (old(endIndex) - old(firstStartIndex))
    {
      first := Receive();
      second := Receive();
    }
  }
}
