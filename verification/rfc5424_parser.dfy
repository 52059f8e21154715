/**
 * The canonical RFC 5424 parser `org.cikit.modules.syslog.rfc5424.Progressive2`:
 * a cursor over a channel of byte chunks with a scratch buffer for tokens
 * that straddle chunks, and `parse5424`, which reads one record header into
 * the parser's fields.
 *
 * Every scanning primitive is specified against `pending`, the bytes of
 * the stream not consumed yet; `parse5424` is proved against the reference
 * reading `Rfc5424Flat.ParseFlat` of those bytes.
 */
module Rfc5424 {
  import opened Bytes
  import opened Scan
  import opened SdValue
  import opened Rfc5424Time
  import opened Rfc5424Flat
  import opened Rfc5424Severity
  import opened Rfc5424Facility
  import opened Rfc5424Codes

  /** A cached (bytes, text) pair for HOSTNAME or APP-NAME: the initial nil entry or a decoded token. */
  predicate CacheOk(cache: (seq<byte>, Option<string>))
  {
    cache == (NIL, None) || (cache.0 != NIL && cache.1 == Some(Latin1(cache.0)))
  }

  /**
   * The `when (tmp)` lookup of HOSTNAME and APP-NAME: the cached text if the
   * token repeats the cached bytes, null for `-`, else decode and cache.
   * The cache never changes the answer.
   */
  function Resolve(cache: (seq<byte>, Option<string>), token: seq<byte>)
    : (r: (Option<string>, (seq<byte>, Option<string>)))
    requires CacheOk(cache)
    ensures r.0 == Name(token)
    ensures CacheOk(r.1)
    ensures token == cache.0 ==> r == (cache.1, cache)
    ensures token == NIL ==> r.1 == cache
    ensures token != NIL && token != cache.0 ==> r.1 == (token, Some(Latin1(token)))
  {
    if token == cache.0 then (cache.1, cache)
    else if token == NIL then (None, cache)
    else (Some(Latin1(token)), (token, Some(Latin1(token))))
  }

  /** The interned SD-IDs and PARAM-NAMEs: each byte string maps to its decoded text. */
  predicate KeysOk(keys: map<seq<byte>, string>)
  {
    forall k {:trigger keys[k]} :: k in keys ==> keys[k] == Latin1(k)
  }

  /**
   * `keys[tmp] ?: decode(tmp).also { keys[copy] = it }`: SD-IDs and
   * PARAM-NAMEs are decoded once and kept for the parser's lifetime.
   */
  function Intern(keys: map<seq<byte>, string>, token: seq<byte>): (r: (string, map<seq<byte>, string>))
    requires forall k :: k in keys ==> keys[k] == Latin1(k)
    ensures r.0 == Latin1(token)
    ensures forall k :: k in r.1 ==> r.1[k] == Latin1(k)
    ensures token in r.1 && keys.Keys <= r.1.Keys
  {
    if token in keys then (keys[token], keys) else (Latin1(token), keys[token := Latin1(token)])
  }

  /** How one step of `parse5424` ends: go on, return a verdict, or throw. */
  datatype Progress = Next | Stop(ok: bool) | Raising(e: Raised)

  /**
   * The chunked parser agrees with the reference: same verdict, fields and
   * unread bytes, or `BufferOverflowException` instead, and nothing is
   * promised where the reference ran into the end of the stream. When the
   * overflow can happen is promised by each step beside `Agrees`: only when
   * a line of the unread bytes is longer than the scratch buffer (`LongLine`).
   */
  predicate Agrees(flat: Flat, p: Progress, f: Fields, rest: seq<byte>)
  {
    match flat
    case ReachedEnd => true
    case Cont(f', rest') => p == Raising(BufferOverflow) || (p == Next && f == f' && rest == rest')
    case Ret(ok, f', rest') => p == Raising(BufferOverflow) || (p == Stop(ok) && f == f' && rest == rest')
    case Raise(e) => p == Raising(BufferOverflow) || p == Raising(e)
  }

  /** A name field is its token, then `skip()` on the rest with the token stored. */
  lemma NameStep(f: Fields, slot: Slot, s: seq<byte>, token: seq<byte>, mid: seq<byte>, g: Fields, rest: seq<byte>)
    requires Lexes(TokenFlat(s, Space), Hit(token), mid)
    requires Agrees(SkipThen(Store(f, slot, Name(token)), mid), Next, g, rest)
    ensures Agrees(NameFieldFlat(f, slot, s), Next, g, rest)
  {
  }

  /** The timestamp field: the timestamp read or missed, then `skip()` with it stored. */
  lemma TimestampStep(f: Fields, s: seq<byte>, t: Scanned<Option<DateTime>>, mid: seq<byte>, g: Fields, rest: seq<byte>)
    requires !t.Fault? && Lexes(TsFlat(s), t, mid)
    requires Agrees(SkipThen(if t.Hit? then f.(ts := t.value) else f, mid), Next, g, rest)
    ensures Agrees(TimestampFlat(f, s), Next, g, rest)
  {
  }

  lemma TimestampFault(f: Fields, s: seq<byte>, e: Raised)
    requires e == BufferOverflow || Lexes(TsFlat(s), Fault(e), [])
    ensures Agrees(TimestampFlat(f, s), Raising(e), f, s)
  {
  }

  /** A parameter: its PARAM-NAME read as a key, then `=` and the value. */
  lemma ParamStep(f: Fields, id: string, s: seq<byte>, key: Scanned<string>, mid: seq<byte>, p: Progress, g: Fields, rest: seq<byte>)
    requires key.Fault? ==> p == Raising(BufferOverflow)
    requires key.NoHit? ==> KeyFlat(s, EqualsOrClose).Exhausted?
    requires key.Hit? ==> KeyFlat(s, EqualsOrClose) == Ok(key.value, mid) && Agrees(AssignFlat(f, id, key.value, mid), p, g, rest)
    ensures Agrees(ParamFlat(f, id, s), p, g, rest)
  {
  }

  /** A parameter whose PARAM-NAME was read: `=` and the value decide it. */
  lemma ParamHit(f: Fields, id: string, s: seq<byte>, key: string, mid: seq<byte>, p: Progress, g: Fields, rest: seq<byte>)
    requires KeyFlat(s, EqualsOrClose) == Ok(key, mid) && Agrees(AssignFlat(f, id, key, mid), p, g, rest)
    ensures Agrees(ParamFlat(f, id, s), p, g, rest)
  {
  }

  /** The PRI digits as `readDigits` reports them decide the reference reading. */
  lemma PriDigits(s: seq<byte>, ok: bool, digits: seq<byte>)
    requires digits == s[..SpanOf(s, Digit)] && ok == (0 < |digits| < |s|)
    ensures !ok && digits == [] ==> PriValueFlat(s) == Ret(false, Reset, s)
    ensures !ok && digits != [] ==> PriValueFlat(s) == ReachedEnd
    ensures ok ==> PriValueFlat(s) == VersionFlat(Reset.(pri := Acc32(0, DigitValues(digits))), s[|digits|..])
  {
  }

  /** A name field whose token runs into the end of the stream tells nothing. */
  lemma NameEnd(f: Fields, slot: Slot, s: seq<byte>)
    requires TokenFlat(s, Space).Exhausted?
    ensures NameFieldFlat(f, slot, s) == ReachedEnd
  {
  }

  /** An SD-ID read as a key, then the spaces after it skipped as `skip` reports them. */
  lemma SdIdStep(s: seq<byte>, id: string, mid: seq<byte>, found: bool, rest: seq<byte>)
    requires KeyFlat(s, Space) == Ok(id, mid)
    requires found == (SpanOf(mid, Space) < |mid|)
    requires found ==> rest == mid[SpanOf(mid, Space)..]
    ensures found ==> SdIdFlat(s) == Ok(id, rest)
    ensures !found ==> SdIdFlat(s).Exhausted?
  {
  }

  lemma SdIdNoKey(s: seq<byte>)
    requires KeyFlat(s, Space).Exhausted?
    ensures SdIdFlat(s).Exhausted?
  {
  }

  /** Without `[`, the structured data ends: `skip()`, and the record is complete. */
  lemma SdEnd(f: Fields, s: seq<byte>, g: Fields, rest: seq<byte>)
    requires !StartsWith(s, LBRACKET)
    requires Agrees(SkipThen(f, s), Next, g, rest)
    ensures Agrees(SdFlat(f, s), Stop(true), g, rest)
  {
  }

  /** After `[` and its SD-ID, the element's parameters follow. */
  lemma SdOpen(f: Fields, s: seq<byte>, id: string, rest: seq<byte>)
    requires StartsWith(s, LBRACKET) && SdIdFlat(s[1..]) == Ok(id, rest)
    ensures SdFlat(f, s) == ParamsFlat(f, id, rest)
  {
  }

  /** An SD-ID that runs into the end of the stream tells nothing. */
  lemma SdOpenEnd(f: Fields, s: seq<byte>)
    requires StartsWith(s, LBRACKET) && SdIdFlat(s[1..]).Exhausted?
    ensures SdFlat(f, s) == ReachedEnd
  {
  }

  /** What a chunked scan answers: a value, a miss, or an exception. */
  datatype Scanned<T> = Hit(value: T) | NoHit | Fault(e: Raised)

  /**
   * A chunked scan agrees with the reference scan `flat` and leaves `rest`
   * unread; nothing is promised where the reference ran into the end of the
   * stream.
   */
  predicate Lexes<T(==)>(flat: Lexed<T>, got: Scanned<T>, rest: seq<byte>)
  {
    match flat
    case Exhausted => true
    case Ok(v, r) => got == Hit(v) && rest == r
    case Miss(r) => got == NoHit && rest == r
    case Thrown(e) => got == Fault(e)
  }

  /**
   * After `]`, the SD-PARAM loop hands back to the SD-ELEMENT loop: the
   * reference reading of what is left is the one the step started from.
   */
  predicate Continues(flat: Flat, f: Fields, rest: seq<byte>)
  {
    flat == ReachedEnd || flat == SdFlat(f, rest)
  }

  /** `parse5424`'s answer as the end of a step. */
  function Settled(r: Outcome): (p: Progress)
    ensures p != Next
  {
    match r
    case Returned(b) => Stop(b)
    case Threw(e) => Raising(e)
  }

  /** A step's end as `parse5424`'s answer. */
  function Verdict(p: Progress): (r: Outcome)
    requires p != Next
    ensures Settled(r) == p
  {
    match p
    case Stop(ok) => Returned(ok)
    case Raising(e) => Threw(e)
  }

  /** A step that goes on either continues the reference reading or the reference ran out. */
  lemma Proceeds(x: Flat, f: Fields, rest: seq<byte>)
    requires Agrees(x, Next, f, rest)
    ensures x == ReachedEnd || x == Cont(f, rest)
  {
  }

  /**
   * The `for (i in digits.inc() .. 9) nanos *= 10` loop of `parseTs`: the
   * fraction padded on the right to nine digits, in `Int` arithmetic.
   */
  method PadNanos(v: int, digits: int) returns (nanos: int)
    ensures nanos == PadRight(v, digits + 1)
  {
    nanos := v;
    var i := digits + 1;
    while i <= 9
      invariant PadRight(nanos, i) == PadRight(v, digits + 1)
      decreases 10 - i
    {
      nanos := Wrap32(nanos * 10);
      i := i + 1;
    }
  }

  /**
   * The `for (i in startIndex until endIndex)` scans of `skip` and
   * `readDigits`: the first index from `from` on whose byte is outside
   * class `c`, or `|s|`.
   */
  method FindOutside(s: seq<byte>, from: int, c: ByteClass) returns (i: int)
    requires 0 <= from <= |s|
    ensures from <= i <= |s|
    ensures SpanOf(s[from..i], c) == i - from
    ensures i < |s| ==> !In(c, s[i])
  {
    i := from;
    while i < |s| && In(c, s[i])
      invariant from <= i <= |s|
      invariant SpanOf(s[from..i], c) == i - from
    {
      assert s[from..i + 1] == s[from..i] + [s[i]];
      assert [s[i]][1..] == [];
      SpanOfConcat(s[from..i], [s[i]], c);
      i := i + 1;
    }
  }

  /**
   * The `ReceiveChannel<ByteBuffer>` a parser reads: the bytes it has not
   * delivered yet, and the sizes of the chunks it delivers them in (a size
   * beyond what is left delivers the rest; once the sizes run out, the rest
   * comes as one last chunk). Each chunk arrives with its position at 0.
   */
  datatype Channel = Channel(unsent: seq<byte>, cuts: seq<nat>)
  {
    /** `receiveOrNull()` answers null: the channel is closed. */
    predicate Done() { unsent == [] && cuts == [] }

    /** The size of the next chunk. */
    function ChunkSize(): (n: nat)
      ensures n <= |unsent|
    {
      if cuts == [] || cuts[0] > |unsent| then |unsent| else cuts[0]
    }

    /** The next chunk. */
    function Next(): seq<byte>
    {
      unsent[..ChunkSize()]
    }

    /** The channel after delivering its next chunk. */
    function Rest(): (c: Channel)
      requires !Done()
      ensures c.Size() < Size()
      ensures Next() + c.unsent == unsent
    {
      var n := ChunkSize();
      assert unsent[..n] + unsent[n..] == unsent;
      Channel(unsent[n..], if cuts == [] then [] else cuts[1..])
    }

    /** Strictly decreases with every delivery. */
    function Size(): nat { |unsent| + |cuts| }
  }

  const DEFAULT_CAPACITY := 1024 * 2

  class Progressive2 {
    var channel: Channel
    var channelClosed: bool
    /** `current`: the bytes of the chunk in hand. */
    var current: seq<byte>
    var bytesConsumedTotal: int
    var startIndex: int
    var endIndex: int

    /** `internalBuffer` and its position and limit. */
    const internalBuffer: array<byte>
    var scratchPos: int
    var scratchLimit: int
    /** `tmp`: either `internalBuffer` or a view on a chunk, whose bytes are `view`. */
    var tmpIsScratch: bool
    var view: seq<byte>

    var cachedHost: (seq<byte>, Option<string>)
    var cachedApp: (seq<byte>, Option<string>)
    var keys: map<seq<byte>, string>

    /**
     * The fields `parse5424` resets and fills: `priValue`, `ts`, `host`,
     * `app`, `proc`, `msgid` and the map `values`, held as one value.
     */
    var record: Fields

    /** The number of bytes the channel delivers in all. */
    ghost const total: nat
    /** The bytes the channel delivers in all, in order. */
    ghost const stream: seq<byte>
    /** The bytes not consumed yet: the rest of the current chunk, then what the channel still holds. */
    ghost var pending: seq<byte>


    ghost predicate Valid()
      reads this`startIndex, this`endIndex, this`current, this`pending, this`channel,
            this`bytesConsumedTotal, this`channelClosed, this`scratchPos, this`scratchLimit
    {
      CursorValid() && ScratchValid()
    }

    /**
     * The cursor: `pending` is what is left of the chunk in hand followed by
     * the channel, and what is left of the stream.
     */
    ghost predicate CursorValid()
      reads this`startIndex, this`endIndex, this`current, this`pending, this`channel,
            this`bytesConsumedTotal, this`channelClosed
    {
      && 0 <= startIndex <= endIndex == |current|
      && pending == current[startIndex..endIndex] + channel.unsent
      && bytesConsumedTotal + startIndex + |pending| == total
      && IsTail(pending, stream)
      && (channelClosed ==> channel.Done())
    }

    /** Position and limit of the scratch buffer lie within its capacity. */
    predicate ScratchValid()
      reads this`scratchPos, this`scratchLimit
    {
      0 <= scratchPos <= scratchLimit <= internalBuffer.Length
    }

    /** The caches only ever hold decoded copies of the bytes they are keyed by. */
    ghost predicate Interned()
      reads this`cachedHost, this`cachedApp, this`keys
    {
      CacheOk(cachedHost) && CacheOk(cachedApp) && KeysOk(keys)
    }

    /** The bytes `tmp` presents between its position and limit. */
    function Tmp(): seq<byte>
      reads this`tmpIsScratch, this`scratchPos, this`scratchLimit, this`view, internalBuffer
      requires 0 <= scratchPos <= scratchLimit <= internalBuffer.Length
    {
      if tmpIsScratch then internalBuffer[scratchPos..scratchLimit] else view
    }

    /** Nothing is left in the current chunk and no further chunk will come. */
    ghost predicate Drained()
      reads this`startIndex, this`endIndex, this`current, this`channel, this`channelClosed
    {
      startIndex >= endIndex && channel.Done()
    }

    /** The bytes `readUntil` can see without another `receive` after the first. */
    ghost function Avail(): seq<byte>
      reads this`startIndex, this`endIndex, this`current, this`channel, this`channelClosed
      requires 0 <= startIndex <= endIndex <= |current|
    {
      if startIndex < endIndex then current[startIndex..endIndex]
      else if !channelClosed then channel.Next()
      else []
    }

    /**
     * `Progressive2(channel, internalBuffer)` with a fresh buffer of the given
     * capacity, on a channel that delivers `data` in chunks of the sizes `sizes`.
     */
    constructor (data: seq<byte>, sizes: seq<nat>, capacity: nat)
      ensures Valid() && Interned()
      ensures channel == Channel(data, sizes) && total == |data| && pending == data
      ensures internalBuffer.Length == capacity && fresh(internalBuffer)
      ensures record == Reset.(pri := -1)
    {
      channel := Channel(data, sizes);
      channelClosed := false;
      current := [];
      bytesConsumedTotal := 0;
      startIndex := 0;
      endIndex := 0;
      internalBuffer := new byte[capacity](_ => 0);
      scratchPos := 0;
      scratchLimit := capacity;
      tmpIsScratch := true;
      view := [];
      cachedHost := (NIL, None);
      cachedApp := (NIL, None);
      keys := map[];
      record := Reset.(pri := -1);
      total := |data|;
      stream := data;
      pending := data;
      DropIsSlice(data, 0);
    }

    // -------------------------------------------------------------------------------------------
    // Getters

    /** `facility()`: null while `priValue` is negative, and for PRI values of 192 and above. */
    function Facility(): (r: Option<Facility>)
      reads this`record
      ensures r.Some? <==> 0 <= record.pri < 192
      ensures r.Some? ==> FacilityOrdinal(r.value) == record.pri / 8
    {
      if record.pri < 0 then None else FacilityOf(record.pri)
    }

    /** `severity()`: null only while `priValue` is negative. */
    function Severity(): (r: Option<Severity>)
      reads this`record
      ensures r.Some? <==> record.pri >= 0
      ensures r.Some? ==> SeverityOrdinal(r.value) == record.pri % 8 && r.value != NOPRI
    {
      if record.pri < 0 then None else SeverityOf(record.pri)
    }

    /** `sd(id, key)`. */
    function Sd(id: string, key: string): (r: Option<string>)
      reads this`record
      ensures r.Some? <==> (id, key) in record.sd
      ensures r.Some? ==> r.value == record.sd[(id, key)]
    {
      if (id, key) in record.sd then Some(record.sd[(id, key)]) else None
    }

    /** `bytesConsumed()`: the number of bytes of the stream consumed so far. */
    function BytesConsumed(): (r: int)
      reads this
      requires Valid()
      ensures r == total - |pending|
    {
      bytesConsumedTotal + startIndex
    }

    // -------------------------------------------------------------------------------------------
    // The cursor

    /**
     * `receive()`: move to the next chunk, counting the rest of the current
     * one as consumed; false once the channel is closed.
     */
    method Receive() returns (ok: bool)
      requires Valid()
      modifies this`channel, this`channelClosed, this`current, this`bytesConsumedTotal,
               this`startIndex, this`endIndex, this`pending
      ensures Valid()
      ensures ok == old(!channelClosed && !channel.Done())
      ensures ok ==> current == old(channel.Next()) && startIndex == 0 && channel.Size() < old(channel.Size())
      ensures ok ==> pending == old(channel.unsent)
      ensures ok ==> old(pending) == old(current[startIndex..endIndex]) + pending
      ensures !ok ==> channelClosed && current == old(current) && startIndex == old(startIndex)
                      && channel.unsent == [] && pending == old(pending)
      ensures !ok ==> BytesConsumed() == old(BytesConsumed())
    {
      if channelClosed {
        return false;
      }
      if channel.Done() {
        channelClosed := true;
        return false;
      }
      Take();
      ok := true;
    }

    /** The delivery part of `receive()`: count the rest of the chunk in hand and move to the next. */
    method Take()
      requires Valid() && !channel.Done()
      modifies this`channel, this`current, this`bytesConsumedTotal, this`startIndex, this`endIndex, this`pending
      ensures Valid()
      ensures current == old(channel.Next()) && startIndex == 0 && channel == old(channel.Rest())
      ensures pending == old(channel.unsent)
      ensures old(pending) == old(current[startIndex..endIndex]) + pending
    {
      var chunk, rest := channel.Next(), channel.Rest();
      assert chunk[0..|chunk|] == chunk;
      assert pending[endIndex - startIndex..] == channel.unsent;
      DropMore(stream, |stream| - |pending|, endIndex - startIndex);
      var consumedTotal := bytesConsumedTotal + endIndex;
      current, channel, startIndex, endIndex, pending, bytesConsumedTotal :=
        chunk, rest, 0, |chunk|, channel.unsent, consumedTotal;
    }

    /** `startIndex = i`: consume the bytes of the current chunk before `i`. */
    method Advance(i: int)
      requires Valid() && startIndex <= i <= endIndex
      modifies this`startIndex, this`pending
      ensures Valid()
      ensures startIndex == i && current == old(current) && endIndex == old(endIndex)
      ensures old(pending) == old(current[startIndex..i]) + pending
      ensures pending == old(current[i..endIndex]) + channel.unsent
      ensures i < endIndex ==> pending != [] && pending[0] == current[i]
      ensures pending == old(pending)[i - old(startIndex)..]
    {
      assert current[startIndex..endIndex] == current[startIndex..i] + current[i..endIndex];
      DropMore(stream, |stream| - |pending|, i - startIndex);
      pending := current[i..endIndex] + channel.unsent;
      startIndex := i;
    }

    /**
     * `while (startIndex >= endIndex) { if (!receive()) return false }`, the
     * opening of `skipPrefix`, `readDigits` and `skipByte`: receive until
     * the current chunk has a byte left; false once the stream has ended.
     */
    method Fill() returns (ok: bool)
      requires Valid()
      modifies this`channel, this`channelClosed, this`current, this`bytesConsumedTotal,
               this`startIndex, this`endIndex, this`pending
      ensures Valid() && pending == old(pending)
      ensures ok == (old(pending) != [])
      ensures ok ==> startIndex < endIndex && pending[0] == current[startIndex]
      ensures !ok || old(channelClosed) ==> channelClosed
    {
      while startIndex >= endIndex
        invariant Valid() && pending == old(pending)
        invariant old(channelClosed) ==> channelClosed
        decreases channel.Size()
      {
        var r := Receive();
        if !r {
          return false;
        }
      }
      return true;
    }

    /**
     * `skip(predicate)`: consume bytes of class `c`; true when a byte outside
     * the class follows. At the end of the stream the last chunk's bytes stay
     * unconsumed.
     */
    method Skip(c: ByteClass) returns (found: bool)
      requires Valid()
      modifies this`channel, this`channelClosed, this`current, this`bytesConsumedTotal,
               this`startIndex, this`endIndex, this`pending
      ensures Valid()
      ensures found == (SpanOf(old(pending), c) < |old(pending)|)
      ensures found ==> pending == old(pending)[SpanOf(old(pending), c)..]
      ensures !found ==> channelClosed && IsSuffix(pending, old(pending))
                         && SpanOf(pending, c) == |pending|
    {
      var run;
      found, run := SkipRun(c);
    }

    /**
     * The loop of `skip` and of `readDigits` after the first digit, with the
     * bytes it passes over: the run of class-`c` bytes at the front of the
     * stream.
     */
    method SkipRun(c: ByteClass) returns (found: bool, run: seq<byte>)
      requires Valid()
      modifies this`channel, this`channelClosed, this`current, this`bytesConsumedTotal,
               this`startIndex, this`endIndex, this`pending
      ensures Valid()
      ensures run == old(pending)[..SpanOf(old(pending), c)]
      ensures found == (SpanOf(old(pending), c) < |old(pending)|)
      ensures found ==> pending == old(pending)[|run|..]
      ensures !found ==> channelClosed && IsSuffix(pending, old(pending))
                         && SpanOf(pending, c) == |pending|
    {
      ghost var P := pending;
      run := [];
      while true
        invariant Valid()
        invariant P == run + pending
        invariant SpanOf(run, c) == |run|
        decreases channel.Size()
      {
        var done, seg;
        done, found, seg := RunRound(c);
        RunAppend(run, seg, c);
        if done && !found {
          SplitAt(run, seg);
          run := run + seg;
          assert P[..|P|] == P;
          return;
        }
        AppendAssoc(run, seg, pending);
        run := run + seg;
        if found {
          RunThenStop(run, pending, c);
          SplitAt(run, pending);
          return;
        }
      }
    }

    /**
     * One round of that loop: scan the chunk in hand from `startIndex`; stop
     * at a byte outside the class, or else receive the next chunk (`done`
     * when there is none).
     */
    method RunRound(c: ByteClass) returns (done: bool, found: bool, seg: seq<byte>)
      requires Valid()
      modifies this`channel, this`channelClosed, this`current, this`bytesConsumedTotal,
               this`startIndex, this`endIndex, this`pending
      ensures Valid()
      ensures SpanOf(seg, c) == |seg|
      ensures found || !done ==> old(pending) == seg + pending
      ensures found ==> done && pending != [] && !In(c, pending[0])
      ensures done && !found ==> channelClosed && pending == old(pending) == seg
      ensures !done ==> channel.Size() < old(channel.Size())
    {
      var i := FindOutside(current, startIndex, c);
      seg := current[startIndex..i];
      if i < endIndex {
        Advance(i);
        return true, true, seg;
      }
      var ok := Receive();
      if !ok {
        assert pending == seg;
        return true, false, seg;
      }
      return false, false, seg;
    }

    /** `skipPrefix(b)`: consume the next byte if it is `b`. */
    method SkipPrefix(b: byte) returns (ok: bool)
      requires Valid()
      modifies this`channel, this`channelClosed, this`current, this`bytesConsumedTotal,
               this`startIndex, this`endIndex, this`pending
      ensures Valid()
      ensures ok == StartsWith(old(pending), b)
      ensures pending == if ok then old(pending)[1..] else old(pending)
      ensures old(pending) == [] || old(channelClosed) ==> channelClosed
    {
      ghost var P := pending;
      var more := Fill();
      if !more {
        return false;
      }
      assert P[0] == current[startIndex];
      if current[startIndex] == b {
        assert current[startIndex..startIndex + 1] == [P[0]];
        Advance(startIndex + 1);
        return true;
      }
      return false;
    }

    /** `skipByte()`: consume one byte and answer it as a signed value, or -1 at the end of the stream. */
    method SkipByte() returns (r: int)
      requires Valid()
      modifies this`channel, this`channelClosed, this`current, this`bytesConsumedTotal,
               this`startIndex, this`endIndex, this`pending
      ensures Valid()
      ensures old(pending) == [] ==> r == -1 && pending == [] && channelClosed
      ensures old(pending) != [] ==> r == SignedByte(old(pending)[0]) && pending == old(pending)[1..]
    {
      ghost var P := pending;
      var more := Fill();
      if !more {
        return -1;
      }
      assert P[0] == current[startIndex];
      r := SignedByte(current[startIndex]);
      assert current[startIndex..startIndex + 1] == [P[0]];
      Advance(startIndex + 1);
    }

    /**
     * `readDigits(block)`: the digit run at the front of the stream, whose
     * values (`DigitValues`) the source hands to `block` one by one. Fails
     * without consuming anything when the next byte is not a digit, and
     * fails after handing over every digit when the stream ends inside the run.
     */
    method ReadDigits() returns (ok: bool, digits: seq<byte>)
      requires Valid()
      modifies this`channel, this`channelClosed, this`current, this`bytesConsumedTotal,
               this`startIndex, this`endIndex, this`pending
      ensures Valid()
      ensures digits == old(pending)[..SpanOf(old(pending), Digit)]
      ensures ok == (0 < |digits| < |old(pending)|)
      ensures ok || digits == [] ==> pending == old(pending)[|digits|..]
      ensures !ok && digits != [] ==> channelClosed && IsSuffix(pending, old(pending))
      ensures old(pending) == [] ==> channelClosed
    {
      ghost var P := pending;
      var more := Fill();
      if !more {
        return false, [];
      }
      var b := current[startIndex];
      if !IsDigit(b) {
        return false, [];
      }
      Advance(startIndex + 1);
      var run;
      ok, run := SkipRun(Digit);
      digits := [b] + run;
      SpanFromSecond(P, Digit);
    }

    /**
     * `readUntil(predicate, useInternalBuffer)`: present in `tmp` the bytes up
     * to the first stop byte (of class `c`, or a newline), which stays unread.
     * A token found in the chunk in hand is a view on that chunk; otherwise the
     * token is gathered in `internalBuffer`, which overflows when the token is
     * longer than its capacity. At the end of the stream the scratch buffer is
     * returned unflipped: its written bytes lie before its position.
     * Without the internal buffer, the rest of the chunk in hand is returned.
     */
    method ReadUntil(c: ByteClass, useInternalBuffer: bool) returns (r: Outcome)
      requires Valid()
      modifies this`channel, this`channelClosed, this`current, this`bytesConsumedTotal,
               this`startIndex, this`endIndex, this`pending,
               this`scratchPos, this`scratchLimit, this`tmpIsScratch, this`view, internalBuffer
      ensures Valid()
      ensures var P := old(pending); var n := StopIndex(P, c);
              r == Returned(true) ==> n < |P| && Tmp() == P[..n] && pending == P[n..]
      ensures var P, A := old(pending), old(Avail());
              var n, k := StopIndex(P, c), StopIndex(A, c);
              useInternalBuffer ==>
                && (r.Threw? <==> k == |A| && n > internalBuffer.Length)
                && (r.Threw? ==> r.e == BufferOverflow)
                && (k < |A| || n <= internalBuffer.Length ==> r == Returned(n < |P|))
      ensures var P := old(pending);
              useInternalBuffer && r == Returned(false) ==>
                && channelClosed && IsSuffix(pending, P)
                && (if tmpIsScratch
                    then scratchPos == |P| && scratchLimit == internalBuffer.Length
                         && internalBuffer[..|P|] == P
                    else P == [] && view == [])
      ensures var A := old(Avail());
              !useInternalBuffer ==> r == Returned(StopIndex(A, c) < |A|)
      ensures var P, A := old(pending), old(Avail());
              !useInternalBuffer && r == Returned(false) ==>
                |A| <= |P| && Tmp() == A == P[..|A|] && pending == P[|A|..]
      ensures var P, A := old(pending), old(Avail()); |A| <= |P| && A == P[..|A|]
    {
      ghost var P, A := pending, Avail();
      var ok := ReceiveIfEmpty();
      if !ok {
        view, tmpIsScratch := [], false;
        return Returned(false);
      }
      SplitAt(A, channel.unsent);
      r := ReadInChunk(c, useInternalBuffer, P, A);
    }

    /**
     * `if (startIndex >= endIndex) { if (!receive()) return false }`, the opening
     * of `readUntil`: a single receive when the chunk in hand is used up. The
     * bytes then in hand are those `Avail` promised.
     */
    method ReceiveIfEmpty() returns (ok: bool)
      requires Valid()
      modifies this`channel, this`channelClosed, this`current, this`bytesConsumedTotal,
               this`startIndex, this`endIndex, this`pending
      ensures Valid() && pending == old(pending)
      ensures ok ==> current[startIndex..endIndex] == old(Avail())
      ensures !ok ==> channelClosed && old(pending) == [] && old(Avail()) == []
    {
      ok := true;
      if startIndex >= endIndex {
        ok := Receive();
        if ok {
          assert current[startIndex..endIndex] == current;
        }
      }
    }

    /**
     * `readUntil` from the chunk in hand on: `D` is what is left of that chunk,
     * `P` all unread bytes.
     */
    method ReadInChunk(c: ByteClass, useInternalBuffer: bool, ghost P: seq<byte>, ghost D: seq<byte>)
      returns (r: Outcome)
      requires Valid()
      requires P == pending && D == current[startIndex..endIndex]
      modifies this`channel, this`channelClosed, this`current, this`bytesConsumedTotal,
               this`startIndex, this`endIndex, this`pending,
               this`scratchPos, this`scratchLimit, this`tmpIsScratch, this`view, internalBuffer
      ensures Valid()
      ensures var n := StopIndex(P, c);
              r == Returned(true) ==> n < |P| && Tmp() == P[..n] && pending == P[n..]
      ensures var n, k := StopIndex(P, c), StopIndex(D, c);
              useInternalBuffer ==>
                && (r.Threw? <==> k == |D| && n > internalBuffer.Length)
                && (r.Threw? ==> r.e == BufferOverflow)
                && (k < |D| || n <= internalBuffer.Length ==> r == Returned(n < |P|))
      ensures useInternalBuffer && r == Returned(false) ==>
                && channelClosed && IsSuffix(pending, P) && tmpIsScratch
                && scratchPos == |P| && scratchLimit == internalBuffer.Length
                && internalBuffer[..|P|] == P
      ensures !useInternalBuffer ==> r == Returned(StopIndex(D, c) < |D|)
      ensures !useInternalBuffer && r == Returned(false) ==>
                Tmp() == D && pending == P[|D|..] && P[..|D|] == D
    {
      ghost var R := channel.unsent;
      var i := FindOutside(current, startIndex, Token(c));
      var seg := current[startIndex..i];
      ScannedTo(current, startIndex, i, endIndex, c);
      StopInFront(D, R, c);
      if i < endIndex {
        ViewTo(i);
        return Returned(true);
      }
      if !useInternalBuffer {
        SplitAt(D, R);
        ViewTo(endIndex);
        return Returned(false);
      }
      r := BufferChunk(c, P);
    }

    /** `tmp` becomes a view on the chunk in hand up to index `i`, where reading goes on. */
    method ViewTo(i: int)
      requires Valid() && startIndex <= i <= endIndex
      modifies this`startIndex, this`pending, this`view, this`tmpIsScratch
      ensures Valid() && !tmpIsScratch
      ensures view == old(current[startIndex..i]) && Tmp() == view
      ensures pending == old(pending)[i - old(startIndex)..]
    {
      view, tmpIsScratch := current[startIndex..i], false;
      Advance(i);
    }

    /**
     * The rest of `readUntil` once the chunk in hand has no stop byte: clear
     * the scratch buffer, put the rest of the chunk into it (an overflow if it
     * does not fit), and go on with the following chunks.
     */
    method BufferChunk(c: ByteClass, ghost P: seq<byte>) returns (r: Outcome)
      requires Valid() && P == pending
      requires StopIndex(current[startIndex..endIndex], c) == endIndex - startIndex
      modifies this`channel, this`channelClosed, this`current, this`bytesConsumedTotal,
               this`startIndex, this`endIndex, this`pending,
               this`scratchPos, this`scratchLimit, this`tmpIsScratch, internalBuffer
      ensures Valid()
      ensures var n := StopIndex(P, c);
              && (r == Returned(true) ==> n < |P| && Tmp() == P[..n] && pending == P[n..])
              && (r.Threw? <==> n > internalBuffer.Length)
              && (r.Threw? ==> r.e == BufferOverflow)
              && (n <= internalBuffer.Length ==> r == Returned(n < |P|))
              && (r == Returned(false) ==>
                    && channelClosed && IsSuffix(pending, P) && tmpIsScratch
                    && scratchPos == |P| && scratchLimit == internalBuffer.Length
                    && internalBuffer[..|P|] == P)
    {
      ghost var R := channel.unsent;
      var seg := current[startIndex..endIndex];
      assert P == seg + R;
      RunThen(seg, R, Token(c));
      scratchPos, scratchLimit := 0, internalBuffer.Length;
      if |seg| > internalBuffer.Length {
        return Threw(BufferOverflow);
      }
      r := ScratchFrom(c, seg, P);
    }

    /** The token so far, `seg`, fits: copy it into the scratch buffer and go on in the next chunks. */
    method ScratchFrom(c: ByteClass, seg: seq<byte>, ghost P: seq<byte>) returns (r: Outcome)
      requires Valid() && P == pending
      requires seg == current[startIndex..endIndex] && |seg| <= internalBuffer.Length
      requires StopIndex(seg, c) == |seg|
      modifies this`channel, this`channelClosed, this`current, this`bytesConsumedTotal,
               this`startIndex, this`endIndex, this`pending,
               this`scratchPos, this`scratchLimit, this`tmpIsScratch, internalBuffer
      ensures Valid()
      ensures var n := StopIndex(P, c);
              && (r == Returned(true) ==> n < |P| && Tmp() == P[..n] && pending == P[n..])
              && (r.Threw? <==> n > internalBuffer.Length)
              && (r.Threw? ==> r.e == BufferOverflow)
              && (n <= internalBuffer.Length ==> r == Returned(n < |P|))
              && (r == Returned(false) ==>
                    && channelClosed && IsSuffix(pending, P) && tmpIsScratch
                    && scratchPos == |P| && scratchLimit == internalBuffer.Length
                    && internalBuffer[..|P|] == P)
    {
      ghost var R := channel.unsent;
      assert P == seg + R;
      RunThen(seg, R, Token(c));
      StartScratch(seg);
      assert pending == P;
      r := ScratchLoop(c, seg, R, P);
    }

    /** `tmp = internalBuffer.clear()` and the rest of the chunk in hand put into it. */
    method StartScratch(seg: seq<byte>)
      requires |seg| <= internalBuffer.Length
      modifies internalBuffer, this`scratchPos, this`scratchLimit, this`tmpIsScratch
      ensures tmpIsScratch && scratchPos == |seg| && scratchLimit == internalBuffer.Length
      ensures internalBuffer[..scratchPos] == seg
    {
      forall k | 0 <= k < |seg| {
        internalBuffer[k] := seg[k];
      }
      scratchPos, scratchLimit, tmpIsScratch := |seg|, internalBuffer.Length, true;
      assert internalBuffer[..scratchPos] == seg;
    }

    /**
     * `while (receive()) { ... }` of `readUntil`: copy the following chunks
     * into the scratch buffer up to the first stop byte. `W` is what the
     * buffer holds already and `U` what the channel still holds.
     */
    method ScratchLoop(c: ByteClass, ghost W: seq<byte>, ghost U: seq<byte>, ghost P0: seq<byte>)
      returns (r: Outcome)
      requires Valid() && tmpIsScratch && scratchLimit == internalBuffer.Length
      requires W == internalBuffer[..scratchPos] && U == channel.unsent && P0 == pending
      modifies this`channel, this`channelClosed, this`current, this`bytesConsumedTotal,
               this`startIndex, this`endIndex, this`pending, this`scratchPos, this`scratchLimit,
               internalBuffer
      ensures Valid()
      ensures var m := StopIndex(U, c);
              && (r.Threw? <==> |W| + m > internalBuffer.Length)
              && (r.Threw? ==> r.e == BufferOverflow)
              && (|W| + m <= internalBuffer.Length ==> r == Returned(m < |U|))
              && (r == Returned(true) ==> Tmp() == W + U[..m] && pending == U[m..])
              && (r == Returned(false) ==>
                    && channelClosed && IsSuffix(pending, P0) && tmpIsScratch
                    && scratchPos == |W| + |U| && scratchLimit == internalBuffer.Length
                    && internalBuffer[..scratchPos] == W + U)
    {
      ghost var X: seq<byte> := [];
      while true
        invariant Valid() && tmpIsScratch && scratchLimit == internalBuffer.Length
        invariant internalBuffer[..scratchPos] == W + X
        invariant U == X + channel.unsent
        invariant SpanOf(X, Token(c)) == |X|
        invariant IsSuffix(pending, P0)
        decreases channel.Size()
      {
        ghost var U0, P1 := channel.unsent, pending;
        var done, seg;
        done, r, seg := ScratchRound(c);
        RunThen(X, U0, Token(c));
        if done {
          assert U == X + U0 && StopIndex(U, c) == |X| + StopIndex(U0, c);
          if r == Returned(false) {
            assert U == X;
          } else if r == Returned(true) {
            AppendAssoc(W, X, U0[..StopIndex(U0, c)]);
          }
          return;
        }
        SuffixTrans(pending, P1, P0);
        RunAppend(X, seg, Token(c));
        AppendAssoc(X, seg, channel.unsent);
        AppendAssoc(W, X, seg);
        X := X + seg;
      }
    }

    /**
     * One round of that loop: receive a chunk and copy its bytes into the
     * scratch buffer up to a stop byte (then flip the buffer) or an overflow.
     */
    method ScratchRound(c: ByteClass) returns (done: bool, r: Outcome, seg: seq<byte>)
      requires Valid() && tmpIsScratch && scratchLimit == internalBuffer.Length
      modifies this`channel, this`channelClosed, this`current, this`bytesConsumedTotal,
               this`startIndex, this`endIndex, this`pending, this`scratchPos, this`scratchLimit,
               internalBuffer
      ensures Valid() && tmpIsScratch
      ensures var W, U := old(internalBuffer[..scratchPos]), old(channel.unsent); var m := StopIndex(U, c);
              && (!done ==> && U == seg + channel.unsent && SpanOf(seg, Token(c)) == |seg|
                            && internalBuffer[..scratchPos] == W + seg
                            && scratchLimit == internalBuffer.Length
                            && channel.Size() < old(channel.Size()) && IsSuffix(pending, old(pending)))
              && (done ==> (r.Threw? <==> |W| + m > internalBuffer.Length))
              && (r.Threw? ==> r.e == BufferOverflow)
              && (done && r == Returned(true) ==>
                    m < |U| && |W| + m <= internalBuffer.Length && Tmp() == W + U[..m] && pending == U[m..])
              && (done && r == Returned(false) ==>
                    && U == [] && channelClosed && pending == old(pending)
                    && scratchPos == old(scratchPos) && scratchLimit == internalBuffer.Length
                    && internalBuffer[..scratchPos] == W)
    {
      ghost var W := internalBuffer[..scratchPos];
      var ok := ReceiveNext();
      if !ok {
        return true, Returned(false), [];
      }
      ghost var D := current[startIndex..endIndex];
      StopInFront(D, channel.unsent, c);
      done, r, seg := CopyChunk(c, W, D, pending);
    }

    /** `receive()` in the loop of `readUntil`: the next chunk is the front of what the channel held. */
    method ReceiveNext() returns (ok: bool)
      requires Valid()
      modifies this`channel, this`channelClosed, this`current, this`bytesConsumedTotal,
               this`startIndex, this`endIndex, this`pending
      ensures Valid()
      ensures ok ==> && old(channel.unsent) == current[startIndex..endIndex] + channel.unsent
                     && pending == old(channel.unsent) && channel.Size() < old(channel.Size())
      ensures !ok ==> channelClosed && pending == old(pending) && old(channel.unsent) == []
    {
      ok := Receive();
      if ok {
        assert current[startIndex..endIndex] == current;
      }
    }

    /**
     * The bytes of the chunk in hand go into the scratch buffer up to a stop
     * byte, where the buffer is flipped and the cursor moved to that byte, or up
     * to an overflow. `D` is the rest of the chunk, `W` the buffer's content.
     */
    method CopyChunk(c: ByteClass, ghost W: seq<byte>, ghost D: seq<byte>, ghost P: seq<byte>)
      returns (done: bool, r: Outcome, seg: seq<byte>)
      requires Valid() && tmpIsScratch && scratchLimit == internalBuffer.Length
      requires W == internalBuffer[..scratchPos] && D == current[startIndex..endIndex] && P == pending
      modifies this`startIndex, this`pending, this`scratchPos, this`scratchLimit, internalBuffer
      ensures Valid() && tmpIsScratch
      ensures var k := StopIndex(D, c);
              && (done <==> r != Returned(false))
              && (r.Threw? <==> |W| + k > internalBuffer.Length)
              && (r.Threw? ==> r.e == BufferOverflow)
              && (r == Returned(true) ==>
                    k < |D| && Tmp() == W + D[..k] && pending == P[k..])
              && (r == Returned(false) ==>
                    && k == |D| && seg == D && pending == P && startIndex == old(startIndex)
                    && scratchLimit == internalBuffer.Length && internalBuffer[..scratchPos] == W + D)
    {
      var i, overflow := CopyUntil(c, W);
      seg := current[startIndex..i];
      ScannedTo(current, startIndex, i, endIndex, c);
      if overflow {
        return true, Threw(BufferOverflow), seg;
      }
      if i < endIndex {
        Advance(i);
        scratchPos, scratchLimit := 0, scratchPos;
        return true, Returned(true), seg;
      }
      return false, Returned(false), seg;
    }

    /**
     * The `for` loop over a received chunk in `readUntil`: put each byte into
     * the scratch buffer until a stop byte (index `i`, left unread) or the end
     * of the chunk; `overflow` when a byte arrives with the buffer full.
     */
    method CopyUntil(c: ByteClass, ghost W: seq<byte>) returns (i: int, overflow: bool)
      requires 0 <= startIndex <= endIndex == |current|
      requires 0 <= scratchPos <= scratchLimit == internalBuffer.Length && W == internalBuffer[..scratchPos]
      modifies internalBuffer, this`scratchPos
      ensures 0 <= scratchPos <= scratchLimit
      ensures startIndex <= i <= endIndex
      ensures SpanOf(current[startIndex..i], Token(c)) == i - startIndex
      ensures !overflow && i < endIndex ==> Stops(c, current[i])
      ensures !overflow ==> internalBuffer[..scratchPos] == W + current[startIndex..i]
      ensures overflow ==> i < endIndex && !Stops(c, current[i])
                           && |W| + (i - startIndex) == internalBuffer.Length
    {
      i, overflow := startIndex, false;
      while i < endIndex
        invariant startIndex <= i <= endIndex
        invariant scratchPos == |W| + (i - startIndex) <= scratchLimit
        invariant internalBuffer[..|W|] == W
        invariant forall k :: startIndex <= k < i ==>
                    internalBuffer[|W| + (k - startIndex)] == current[k] && !Stops(c, current[k])
      {
        var b := current[i];
        if In(c, b) || b == NL {
          break;
        }
        if scratchPos >= scratchLimit {
          overflow := true;
          break;
        }
        internalBuffer[scratchPos] := b;
        scratchPos := scratchPos + 1;
        i := i + 1;
      }
      ghost var read := current[startIndex..i];
      assert forall k :: 0 <= k < |read| ==> read[k] == current[startIndex + k];
      assert forall k :: 0 <= k < |read| ==> !Stops(c, read[k]);
      SpanAll(read, Token(c));
      if !overflow {
        assert internalBuffer[..scratchPos] == W + read;
      }
    }

    // -------------------------------------------------------------------------------------------
    // parseTs and parseOffset, each proved against its reference reading

    /** `readDigits` with an accumulator that collects the digit values in order. */
    method Digits() returns (r: Scanned<seq<int>>)
      requires Valid()
      modifies this`channel, this`channelClosed, this`current, this`bytesConsumedTotal,
               this`startIndex, this`endIndex, this`pending
      ensures Valid()
      ensures Lexes(DigitsFlat(old(pending)), r, pending)
      ensures r.Hit? ==> |r.value| > 0 && forall i :: 0 <= i < |r.value| ==> 0 <= r.value[i] <= 9
      ensures !r.Fault? && |pending| <= |old(pending)|
    {
      ghost var P := pending;
      var ok, digits := ReadDigits();
      SpanOfBytes(P, Digit);
      DigitValuesRange(digits);
      r := if ok then Hit(DigitValues(digits)) else NoHit;
    }

    /** `skipPrefix(sep)` and then `readDigits`, as between the date and time fields. */
    method SepDigits(sep: byte) returns (r: Scanned<seq<int>>)
      requires Valid()
      modifies this`channel, this`channelClosed, this`current, this`bytesConsumedTotal,
               this`startIndex, this`endIndex, this`pending
      ensures Valid()
      ensures Lexes(SepDigitsFlat(old(pending), sep), r, pending)
      ensures r.Hit? ==> |r.value| > 0 && forall i :: 0 <= i < |r.value| ==> 0 <= r.value[i] <= 9
      ensures !r.Fault? && |pending| <= |old(pending)|
    {
      var ok := SkipPrefix(sep);
      if !ok {
        return NoHit;
      }
      r := Digits();
    }

    /** `parseOffset(sign)`: `hh:mm`, both parts taking the sign, as an offset in seconds. */
    method ParseOffset(sign: int) returns (r: Scanned<int>)
      requires Valid()
      modifies this`channel, this`channelClosed, this`current, this`bytesConsumedTotal,
               this`startIndex, this`endIndex, this`pending
      ensures Valid()
      ensures Lexes(OffsetFlat(old(pending), sign), r, pending)
      ensures r.Fault? ==> r.e == InvalidDateTime
      ensures !r.Fault? ==> |pending| <= |old(pending)|
    {
      var hs := Digits();
      if !hs.Hit? {
        return NoHit;
      }
      var ms := SepDigits(COLON);
      if !ms.Hit? {
        return NoHit;
      }
      var offset := OffsetOf(Wrap32(Acc32(0, hs.value) * sign), Wrap32(Acc32(0, ms.value) * sign));
      r := if offset.None? then Fault(InvalidDateTime) else Hit(offset.value);
    }

    /** `when (skipByte())`: `Z`, or a signed offset; any other byte, or none, fails. */
    method Zone() returns (r: Scanned<int>)
      requires Valid()
      modifies this`channel, this`channelClosed, this`current, this`bytesConsumedTotal,
               this`startIndex, this`endIndex, this`pending
      ensures Valid()
      ensures Lexes(ZoneFlat(old(pending)), r, pending)
      ensures r.Fault? ==> r.e == InvalidDateTime
      ensures !r.Fault? ==> |pending| <= |old(pending)|
    {
      var b := SkipByte();
      if b == UPPER_Z {
        r := Hit(0);
      } else if b == PLUS {
        r := ParseOffset(1);
      } else if b == DASH {
        r := ParseOffset(-1);
      } else {
        r := NoHit;
      }
    }

    /** The optional `.fraction`: one to nine digits, padded to nanoseconds. */
    method Fraction() returns (r: Scanned<int>)
      requires Valid()
      modifies this`channel, this`channelClosed, this`current, this`bytesConsumedTotal,
               this`startIndex, this`endIndex, this`pending
      ensures Valid()
      ensures Lexes(FractionFlat(old(pending)), r, pending)
      ensures !r.Fault? && |pending| <= |old(pending)|
    {
      var dot := SkipPrefix(DOT);
      if !dot {
        return Hit(0);
      }
      var ds := Digits();
      if !ds.Hit? || |ds.value| > 9 {
        return NoHit;
      }
      var nanos := PadNanos(Acc32(0, ds.value), |ds.value|);
      r := Hit(nanos);
    }

    /** The fraction and the zone after the seconds, then `OffsetDateTime.of`. */
    method ClockRest(year: int, month: int, day: int, clock: Clock) returns (r: Scanned<DateTime>)
      requires Valid()
      modifies this`channel, this`channelClosed, this`current, this`bytesConsumedTotal,
               this`startIndex, this`endIndex, this`pending
      ensures Valid()
      ensures Lexes(ClockFlat(year, month, day, clock, old(pending)), r, pending)
      ensures r.Fault? ==> r.e == InvalidDateTime
      ensures !r.Fault? ==> |pending| <= |old(pending)|
    {
      var nanos := Fraction();
      if !nanos.Hit? {
        return NoHit;
      }
      var offset := Zone();
      if !offset.Hit? {
        return if offset.Fault? then Fault(offset.e) else NoHit;
      }
      var t := DateTimeOf(year, month, day, clock.hour, clock.minute, clock.second,
                          nanos.value, offset.value);
      r := if t.None? then Fault(InvalidDateTime) else Hit(t.value);
    }

    /** `parseTs` after the year: `-MM-DDThh:mm:ss`, then the fraction and the zone. */
    method DateRest(year: int) returns (r: Scanned<DateTime>)
      requires Valid()
      modifies this`channel, this`channelClosed, this`current, this`bytesConsumedTotal,
               this`startIndex, this`endIndex, this`pending
      ensures Valid()
      ensures Lexes(DateFlat(year, old(pending)), r, pending)
      ensures r.Fault? ==> r.e == InvalidDateTime
      ensures !r.Fault? ==> |pending| <= |old(pending)|
    {
      var mo := SepDigits(DASH);
      if !mo.Hit? {
        return NoHit;
      }
      var d := SepDigits(DASH);
      if !d.Hit? {
        return NoHit;
      }
      var h := SepDigits(UPPER_T);
      if !h.Hit? {
        return NoHit;
      }
      var mi := SepDigits(COLON);
      if !mi.Hit? {
        return NoHit;
      }
      var sec := SepDigits(COLON);
      if !sec.Hit? {
        return NoHit;
      }
      var clock := Clock(Acc32(0, h.value), Acc32(0, mi.value), Acc32(0, sec.value));
      r := ClockRest(year, Acc32(0, mo.value), Acc32(0, d.value), clock);
    }

    /** `readUntil(isSpace)` into the scratch buffer, answered as a scan: the token, or none at the end of the stream. */
    method ReadToken(c: ByteClass) returns (r: Scanned<seq<byte>>)
      requires Valid()
      modifies this`channel, this`channelClosed, this`current, this`bytesConsumedTotal,
               this`startIndex, this`endIndex, this`pending,
               this`scratchPos, this`scratchLimit, this`tmpIsScratch, this`view, internalBuffer
      ensures Valid()
      ensures var P, A := old(pending), old(Avail());
              r.Fault? <==> StopIndex(A, c) == |A| && StopIndex(P, c) > internalBuffer.Length
      ensures r.Fault? ==> r.e == BufferOverflow && LongLine(old(pending), internalBuffer.Length)
      ensures r.NoHit? ==> TokenFlat(old(pending), c).Exhausted?
      ensures r.Hit? ==> TokenFlat(old(pending), c) == Ok(r.value, pending) && r.value == Tmp()
      ensures !r.Fault? ==> |pending| <= |old(pending)|
    {
      ghost var P := pending;
      var o := ReadUntil(c, true);
      if o.Threw? {
        LongToken(P, c, internalBuffer.Length);
        return Fault(o.e);
      }
      if !o.b {
        assert TokenFlat(P, c) == Exhausted;
        return NoHit;
      }
      r := Hit(Tmp());
    }

    /**
     * `readUntil(c)` and then `keys[tmp] ?: decode(tmp).also { keys[copy] = it }`:
     * the text of the token, decoded once per distinct token.
     */
    method ReadKey(c: ByteClass) returns (r: Scanned<string>)
      requires Valid() && Interned()
      modifies this`channel, this`channelClosed, this`current, this`bytesConsumedTotal,
               this`startIndex, this`endIndex, this`pending,
               this`scratchPos, this`scratchLimit, this`tmpIsScratch, this`view, internalBuffer, this`keys
      ensures Valid() && Interned()
      ensures var P, A := old(pending), old(Avail());
              r.Fault? <==> StopIndex(A, c) == |A| && StopIndex(P, c) > internalBuffer.Length
      ensures r.Fault? ==> r.e == BufferOverflow && LongLine(old(pending), internalBuffer.Length)
      ensures r.NoHit? ==> KeyFlat(old(pending), c).Exhausted?
      ensures r.Hit? ==> KeyFlat(old(pending), c) == Ok(r.value, pending)
      ensures !r.Fault? ==> |pending| <= |old(pending)|
    {
      ghost var P, A := pending, Avail();
      ghost var long := StopIndex(A, c) == |A| && StopIndex(P, c) > internalBuffer.Length;
      var t := ReadToken(c);
      assert t.Fault? <==> long;
      match t {
        case Fault(e) => return Fault(e);
        case NoHit => return NoHit;
        case Hit(token) =>
          var interned := Intern(keys, token);
          keys := interned.1;
          return Hit(interned.0);
      }
    }

    /** `readUntil()` for the SD-ID, interned, then `skip()`. */
    method SdId() returns (r: Scanned<string>)
      requires Valid() && Interned()
      modifies this`channel, this`channelClosed, this`current, this`bytesConsumedTotal,
               this`startIndex, this`endIndex, this`pending,
               this`scratchPos, this`scratchLimit, this`tmpIsScratch, this`view, internalBuffer, this`keys
      ensures Valid() && Interned()
      ensures var P, A := old(pending), old(Avail());
              r.Fault? <==> StopIndex(A, Space) == |A| && StopIndex(P, Space) > internalBuffer.Length
      ensures r.Fault? ==> r.e == BufferOverflow && LongLine(old(pending), internalBuffer.Length)
      ensures r.NoHit? ==> SdIdFlat(old(pending)).Exhausted?
      ensures r.Hit? ==> SdIdFlat(old(pending)) == Ok(r.value, pending)
      ensures !r.Fault? ==> |pending| <= |old(pending)|
    {
      ghost var P, A := pending, Avail();
      ghost var long := StopIndex(A, Space) == |A| && StopIndex(P, Space) > internalBuffer.Length;
      r := ReadKey(Space);
      assert r.Fault? <==> long;
      if r.Hit? {
        r := SpacesAfterId(r.value, P);
      } else if r.NoHit? {
        SdIdNoKey(P);
      }
    }

    /** `skip()` after the SD-ID `id` read from `P`: the element goes on only if a byte follows the spaces. */
    method SpacesAfterId(id: string, ghost P: seq<byte>) returns (r: Scanned<string>)
      requires Valid() && KeyFlat(P, Space) == Ok(id, pending)
      modifies this`channel, this`channelClosed, this`current, this`bytesConsumedTotal,
               this`startIndex, this`endIndex, this`pending
      ensures Valid() && (r == Hit(id) || r == NoHit)
      ensures r.NoHit? ==> SdIdFlat(P).Exhausted?
      ensures r.Hit? ==> SdIdFlat(P) == Ok(id, pending)
      ensures |pending| <= |old(pending)|
    {
      ghost var mid := pending;
      var found := Skip(Space);
      SdIdStep(P, id, mid, found, pending);
      r := if found then Hit(id) else NoHit;
    }

    /**
     * The quoted PARAM-VALUE after `"`: read up to `"`, `skipByte()`, decode
     * the segment into `value`; a segment ending in an open escape gets its
     * `"` appended and reading goes on.
     */
    method QuotedValue() returns (r: Scanned<string>)
      requires Valid()
      modifies this`channel, this`channelClosed, this`current, this`bytesConsumedTotal,
               this`startIndex, this`endIndex, this`pending,
               this`scratchPos, this`scratchLimit, this`tmpIsScratch, this`view, internalBuffer
      ensures Valid()
      ensures r.Fault? ==> r.e == BufferOverflow && LongLine(old(pending), internalBuffer.Length)
      ensures !r.Fault? ==> Lexes(QuotedFlat("", old(pending)), r, pending)
      ensures !r.Fault? ==> |pending| <= |old(pending)|
    {
      ghost var P := pending;
      ghost var goal := QuotedFlat("", pending);
      var value := "";
      while true
        invariant Valid() && |pending| <= |P|
        invariant goal.Exhausted? || goal == QuotedFlat(value, pending)
        decreases |pending|
      {
        ghost var P1 := pending;
        var t := ReadToken(Quote);
        if t.Fault? {
          LongLineLater(stream, P, P1, internalBuffer.Length);
          return Fault(t.e);
        }
        if t.NoHit? {
          return NoHit;
        }
        var _ := SkipByte();
        var out, paired := DecodeQuotedString(value, Latin1(t.value));
        if paired {
          return Hit(out);
        }
        value := out + "\"";
      }
    }

    /**
     * One SD-PARAM: `readUntil('=' or ']')` for the PARAM-NAME (interned),
     * `skipPrefix('=')`, the value, then `values[id to key] = value`.
     */
    method ParseParam(id: string) returns (p: Progress)
      requires Valid() && Interned()
      modifies this`channel, this`channelClosed, this`current, this`bytesConsumedTotal,
               this`startIndex, this`endIndex, this`pending,
               this`scratchPos, this`scratchLimit, this`tmpIsScratch, this`view, internalBuffer,
               this`keys, this`record
      ensures Valid() && Interned()
      ensures !p.Raising? ==> |pending| <= |old(pending)|
      ensures p == Next ==> |pending| < |old(pending)|
      ensures Agrees(ParamFlat(old(record), id, old(pending)), p, record, pending)
      ensures p == Raising(BufferOverflow) ==> LongLine(old(pending), internalBuffer.Length)
    {
      ghost var f, P := record, pending;
      var key := ReadKey(EqualsOrClose);
      p := KeyedParam(id, key, f, P);
    }

    /** What follows the PARAM-NAME read from `P`: `=` and the value, or the failure of the read. */
    method KeyedParam(id: string, key: Scanned<string>, ghost f: Fields, ghost P: seq<byte>) returns (p: Progress)
      requires Valid() && f == record && IsTail(P, stream)
      requires key.Fault? ==> key.e == BufferOverflow && LongLine(P, internalBuffer.Length)
      requires key.NoHit? ==> KeyFlat(P, EqualsOrClose).Exhausted?
      requires key.Hit? ==> KeyFlat(P, EqualsOrClose) == Ok(key.value, pending)
      requires !key.Fault? ==> |pending| <= |P|
      modifies this`channel, this`channelClosed, this`current, this`bytesConsumedTotal,
               this`startIndex, this`endIndex, this`pending,
               this`scratchPos, this`scratchLimit, this`tmpIsScratch, this`view, internalBuffer,
               this`record
      ensures Valid()
      ensures !p.Raising? ==> |pending| <= |P|
      ensures p == Next ==> |pending| < |P|
      ensures Agrees(ParamFlat(f, id, P), p, record, pending)
      ensures p == Raising(BufferOverflow) ==> LongLine(P, internalBuffer.Length)
    {
      if key.Fault? {
        p := Raising(key.e);
        ParamStep(f, id, P, key, pending, p, record, pending);
      } else if key.NoHit? {
        p := Stop(false);
        ParamStep(f, id, P, key, pending, p, record, pending);
      } else {
        p := AssignKey(id, key.value, f, P);
      }
    }

    /** `=` and the value after the PARAM-NAME `key` read from `P`. */
    method AssignKey(id: string, key: string, ghost f: Fields, ghost P: seq<byte>) returns (p: Progress)
      requires Valid() && f == record
      requires KeyFlat(P, EqualsOrClose) == Ok(key, pending) && |pending| <= |P| && IsTail(P, stream)
      modifies this`channel, this`channelClosed, this`current, this`bytesConsumedTotal,
               this`startIndex, this`endIndex, this`pending,
               this`scratchPos, this`scratchLimit, this`tmpIsScratch, this`view, internalBuffer,
               this`record
      ensures Valid()
      ensures !p.Raising? ==> |pending| <= |P|
      ensures p == Next ==> |pending| < |P|
      ensures Agrees(ParamFlat(f, id, P), p, record, pending)
      ensures p == Raising(BufferOverflow) ==> LongLine(P, internalBuffer.Length)
    {
      ghost var mid := pending;
      p := Assign(id, key);
      if p == Raising(BufferOverflow) {
        LongLineLater(stream, P, mid, internalBuffer.Length);
      }
      ghost var g, rest := record, pending;
      ParamHit(f, id, P, key, mid, p, g, rest);
    }

    /**
     * The SD-PARAM loop of element `id`: `skipPrefix(']')` ends it (the SD
     * loop goes on from there), anything else is read as a parameter.
     */
    method ParseParams(id: string, ghost f: Fields, ghost P: seq<byte>) returns (p: Progress)
      requires Valid() && Interned() && f == record && P == pending
      modifies this`channel, this`channelClosed, this`current, this`bytesConsumedTotal,
               this`startIndex, this`endIndex, this`pending,
               this`scratchPos, this`scratchLimit, this`tmpIsScratch, this`view, internalBuffer,
               this`keys, this`record
      ensures Valid() && Interned()
      ensures !p.Raising? ==> |pending| <= |P|
      ensures p == Next ==> |pending| < |P| && Continues(ParamsFlat(f, id, P), record, pending)
      ensures p != Next ==> Agrees(ParamsFlat(f, id, P), p, record, pending)
      ensures p == Raising(BufferOverflow) ==> LongLine(P, internalBuffer.Length)
    {
      ghost var goal := ParamsFlat(record, id, pending);
      while true
        invariant Valid() && Interned() && |pending| <= |P|
        invariant goal == ReachedEnd || goal == ParamsFlat(record, id, pending)
        decreases |pending|
      {
        var close := SkipPrefix(RBRACKET);
        if close {
          return Next;
        }
        ghost var f, before := record, pending;
        p := ParseParam(id);
        if p != Next {
          if p == Raising(BufferOverflow) {
            LongLineLater(stream, P, before, internalBuffer.Length);
          }
          return;
        }
        assert ParamFlat(f, id, before) == ReachedEnd || ParamFlat(f, id, before) == Cont(record, pending);
      }
    }

    /**
     * The SD-ELEMENT loop: `while (skipPrefix('['))` read the SD-ID and the
     * parameters; then `skip()` and return true.
     */
    method ParseSd() returns (r: Outcome)
      requires Valid() && Interned()
      modifies this`channel, this`channelClosed, this`current, this`bytesConsumedTotal,
               this`startIndex, this`endIndex, this`pending,
               this`scratchPos, this`scratchLimit, this`tmpIsScratch, this`view, internalBuffer,
               this`keys, this`record
      ensures Valid() && Interned()
      ensures Agrees(SdFlat(old(record), old(pending)), Settled(r), record, pending)
      ensures r == Threw(BufferOverflow) ==> LongLine(old(pending), internalBuffer.Length)
    {
      ghost var P := pending;
      ghost var goal := SdFlat(record, pending);
      while true
        invariant Valid() && Interned() && |pending| <= |P|
        invariant Continues(goal, record, pending)
        decreases |pending|
      {
        ghost var Q := pending;
        var p := SdElement(record, pending);
        match p {
          case Next =>
          case Stop(ok) => return Returned(ok);
          case Raising(e) =>
            if e == BufferOverflow {
              LongLineLater(stream, P, Q, internalBuffer.Length);
            }
            return Threw(e);
        }
      }
    }

    /**
     * One turn of that loop: `[`, the SD-ID and the parameters up to `]`
     * (`Next`), or the end of the structured data.
     */
    method SdElement(ghost f: Fields, ghost before: seq<byte>) returns (p: Progress)
      requires Valid() && Interned() && f == record && before == pending
      modifies this`channel, this`channelClosed, this`current, this`bytesConsumedTotal,
               this`startIndex, this`endIndex, this`pending,
               this`scratchPos, this`scratchLimit, this`tmpIsScratch, this`view, internalBuffer,
               this`keys, this`record
      ensures Valid() && Interned()
      ensures p == Next ==> |pending| < |before| && Continues(SdFlat(f, before), record, pending)
      ensures p != Next ==> Agrees(SdFlat(f, before), p, record, pending)
      ensures p == Raising(BufferOverflow) ==> LongLine(before, internalBuffer.Length)
    {
      var open := SkipPrefix(LBRACKET);
      if !open {
        SkipSpaces();
        SdEnd(f, before, record, pending);
        return Stop(true);
      }
      p := OpenElement(f, before);
    }

    /** After the `[` that opens an element read from `before`: the SD-ID, then the parameters. */
    method OpenElement(ghost f: Fields, ghost before: seq<byte>) returns (p: Progress)
      requires Valid() && Interned() && f == record
      requires IsTail(before, stream) && StartsWith(before, LBRACKET) && pending == before[1..]
      modifies this`channel, this`channelClosed, this`current, this`bytesConsumedTotal,
               this`startIndex, this`endIndex, this`pending,
               this`scratchPos, this`scratchLimit, this`tmpIsScratch, this`view, internalBuffer,
               this`keys, this`record
      ensures Valid() && Interned()
      ensures p == Next ==> |pending| < |before| && Continues(SdFlat(f, before), record, pending)
      ensures p != Next ==> Agrees(SdFlat(f, before), p, record, pending)
      ensures p == Raising(BufferOverflow) ==> LongLine(before, internalBuffer.Length)
    {
      ghost var Q := pending;
      var id := SdId();
      if id.Fault? {
        LongLineLater(stream, before, Q, internalBuffer.Length);
        return Raising(id.e);
      }
      if id.NoHit? {
        SdOpenEnd(f, before);
        return Stop(false);
      }
      SdOpen(f, before, id.value, pending);
      p := ElementParams(id.value, f, before);
    }

    /** The parameters of element `id`, which decide the element read from `before`. */
    method ElementParams(id: string, ghost f: Fields, ghost before: seq<byte>) returns (p: Progress)
      requires Valid() && Interned() && f == record
      requires IsTail(before, stream) && |pending| < |before|
      requires SdFlat(f, before) == ParamsFlat(f, id, pending)
      modifies this`channel, this`channelClosed, this`current, this`bytesConsumedTotal,
               this`startIndex, this`endIndex, this`pending,
               this`scratchPos, this`scratchLimit, this`tmpIsScratch, this`view, internalBuffer,
               this`keys, this`record
      ensures Valid() && Interned()
      ensures p == Next ==> |pending| < |before| && Continues(SdFlat(f, before), record, pending)
      ensures p != Next ==> Agrees(SdFlat(f, before), p, record, pending)
      ensures p == Raising(BufferOverflow) ==> LongLine(before, internalBuffer.Length)
    {
      ghost var Q := pending;
      p := ParseParams(id, record, pending);
      if p == Raising(BufferOverflow) {
        LongLineLater(stream, before, Q, internalBuffer.Length);
      }
    }

    /** `skipPrefix('=')` and the value, stored under `(id, key)`; no `=` fails the record. */
    method Assign(id: string, key: string) returns (p: Progress)
      requires Valid()
      modifies this`channel, this`channelClosed, this`current, this`bytesConsumedTotal,
               this`startIndex, this`endIndex, this`pending,
               this`scratchPos, this`scratchLimit, this`tmpIsScratch, this`view, internalBuffer, this`record
      ensures Valid()
      ensures !p.Raising? ==> |pending| <= |old(pending)|
      ensures p == Next ==> |pending| < |old(pending)|
      ensures Agrees(AssignFlat(old(record), id, key, old(pending)), p, record, pending)
      ensures p == Raising(BufferOverflow) ==> LongLine(old(pending), internalBuffer.Length)
    {
      ghost var P := pending;
      var eq := SkipPrefix(EQUALS);
      if !eq {
        return Stop(false);
      }
      ghost var Q := pending;
      var value := ParamValue();
      if value.Fault? {
        LongLineLater(stream, P, Q, internalBuffer.Length);
        return Raising(value.e);
      }
      if value.NoHit? {
        return Stop(false);
      }
      record := record.(sd := record.sd[(id, key) := value.value]);
      p := Next;
    }

    /** A PARAM-VALUE after `=`: quoted, or else `readUntil(isSpace or ']')`. */
    method ParamValue() returns (r: Scanned<string>)
      requires Valid()
      modifies this`channel, this`channelClosed, this`current, this`bytesConsumedTotal,
               this`startIndex, this`endIndex, this`pending,
               this`scratchPos, this`scratchLimit, this`tmpIsScratch, this`view, internalBuffer
      ensures Valid()
      ensures r.Fault? ==> r.e == BufferOverflow && LongLine(old(pending), internalBuffer.Length)
      ensures !r.Fault? ==> Lexes(ValueFlat(old(pending)), r, pending)
      ensures !r.Fault? ==> |pending| <= |old(pending)|
    {
      ghost var P := pending;
      var quoted := SkipPrefix(QUOTE);
      if quoted {
        ghost var Q := pending;
        r := QuotedValue();
        if r.Fault? {
          LongLineLater(stream, P, Q, internalBuffer.Length);
        }
        return;
      }
      var t := ReadToken(SpaceOrClose);
      r := match t
        case Hit(token) => Hit(Latin1(token))
        case NoHit => NoHit
        case Fault(e) => Fault(e);
    }

    /** `readUntil() && tmp == nilBytes`, answered as a scan. */
    method ReadNil() returns (r: Scanned<bool>)
      requires Valid()
      modifies this`channel, this`channelClosed, this`current, this`bytesConsumedTotal,
               this`startIndex, this`endIndex, this`pending,
               this`scratchPos, this`scratchLimit, this`tmpIsScratch, this`view, internalBuffer
      ensures Valid()
      ensures var P, A := old(pending), old(Avail());
              r.Fault? <==> StopIndex(A, Space) == |A| && StopIndex(P, Space) > internalBuffer.Length
      ensures r.Fault? ==> r.e == BufferOverflow && LongLine(old(pending), internalBuffer.Length)
      ensures !r.Fault? ==> Lexes(NilFlat(old(pending)), r, pending)
      ensures !r.Fault? ==> |pending| <= |old(pending)|
    {
      var t := ReadToken(Space);
      r := match t
        case Hit(token) => Hit(token == NIL)
        case NoHit => NoHit
        case Fault(e) => Fault(e);
    }

    /**
     * `parseTs()`: a timestamp, or the nil value `-` (no timestamp). Only the
     * token read after a non-digit start can overflow the scratch buffer.
     */
    method ParseTs() returns (r: Scanned<Option<DateTime>>)
      requires Valid()
      modifies this`channel, this`channelClosed, this`current, this`bytesConsumedTotal,
               this`startIndex, this`endIndex, this`pending,
               this`scratchPos, this`scratchLimit, this`tmpIsScratch, this`view, internalBuffer
      ensures Valid()
      ensures r == Fault(BufferOverflow) || Lexes(TsFlat(old(pending)), r, pending)
      ensures r == Fault(BufferOverflow) ==> LongLine(old(pending), internalBuffer.Length)
      ensures !r.Fault? ==> |pending| <= |old(pending)|
    {
      ghost var P := pending;
      var y := Digits();
      if !y.Hit? {
        ghost var Q := pending;
        var nil := ReadNil();
        if nil.Fault? {
          LongLineLater(stream, P, Q, internalBuffer.Length);
        }
        return match nil
          case Hit(b) => if b then Hit(None) else NoHit
          case NoHit => NoHit
          case Fault(e) => Fault(e);
      }
      var t := DateRest(Acc32(0, y.value));
      r := match t
        case Hit(v) => Hit(Some(v))
        case NoHit => NoHit
        case Fault(e) => Fault(e);
    }

    // -------------------------------------------------------------------------------------------
    // parse5424, step by step, each step proved against its reference reading

    /** `skip()` whose answer `parse5424` ignores. */
    method SkipSpaces()
      requires Valid()
      modifies this`channel, this`channelClosed, this`current, this`bytesConsumedTotal,
               this`startIndex, this`endIndex, this`pending
      ensures Valid() && |pending| <= |old(pending)|
      ensures Agrees(SkipThen(record, old(pending)), Next, record, pending)
    {
      var found := Skip(Space);
    }

    /** `//reset`: the record's fields before reading a record. */
    method ResetRecord()
      modifies this`record
      ensures record == Reset
    {
      record := Reset;
    }

    /**
     * `parse5424()`: reset the record's fields and read one record's header
     * and structured data. Agrees with the reference reading of the unread
     * bytes; the caches and interned keys keep holding decoded copies.
     */
    method Parse5424() returns (r: Outcome)
      requires Valid() && Interned()
      modifies this`channel, this`channelClosed, this`current, this`bytesConsumedTotal,
               this`startIndex, this`endIndex, this`pending,
               this`scratchPos, this`scratchLimit, this`tmpIsScratch, this`view, internalBuffer,
               this`keys, this`record, this`cachedHost, this`cachedApp
      ensures Valid() && Interned()
      ensures Agrees(ParseFlat(old(pending)), Settled(r), record, pending)
      ensures r == Threw(BufferOverflow) ==> LongLine(old(pending), internalBuffer.Length)
    {
      ghost var P := pending;
      var p := ParsePri();
      if p != Next {
        return Verdict(p);
      }
      Proceeds(PriFlat(P), record, pending);
      ghost var Q := pending;
      r := ParseFields(PriFlat(P));
      if r == Threw(BufferOverflow) {
        LongLineLater(stream, P, Q, internalBuffer.Length);
      }
    }

    /** The fields after the version, each step proved against its reference reading. */
    method ParseFields(ghost x: Flat) returns (r: Outcome)
      requires Valid() && Interned()
      requires x == ReachedEnd || x == Cont(record, pending)
      modifies this`channel, this`channelClosed, this`current, this`bytesConsumedTotal,
               this`startIndex, this`endIndex, this`pending,
               this`scratchPos, this`scratchLimit, this`tmpIsScratch, this`view, internalBuffer,
               this`keys, this`record, this`cachedHost, this`cachedApp
      ensures Valid() && Interned()
      ensures x.Cont? ==> Agrees(AfterPri(x.f, x.rest), Settled(r), record, pending)
      ensures r == Threw(BufferOverflow) ==> LongLine(old(pending), internalBuffer.Length)
    {
      ghost var P := pending;
      ghost var f, s := record, pending;
      var p := ParseTimestamp();
      if p != Next {
        return Verdict(p);
      }
      Proceeds(TimestampFlat(f, s), record, pending);
      f, s := record, pending;
      p := ParseName(HostSlot);
      if p != Next {
        if p == Raising(BufferOverflow) {
          LongLineLater(stream, P, s, internalBuffer.Length);
        }
        return Verdict(p);
      }
      Proceeds(NameFieldFlat(f, HostSlot, s), record, pending);
      f, s := record, pending;
      p := ParseName(AppSlot);
      if p != Next {
        if p == Raising(BufferOverflow) {
          LongLineLater(stream, P, s, internalBuffer.Length);
        }
        return Verdict(p);
      }
      Proceeds(NameFieldFlat(f, AppSlot, s), record, pending);
      s := pending;
      r := ParseTail();
      if r == Threw(BufferOverflow) {
        LongLineLater(stream, P, s, internalBuffer.Length);
      }
    }

    /** PROCID, MSGID and the structured data. */
    method ParseTail() returns (r: Outcome)
      requires Valid() && Interned()
      modifies this`channel, this`channelClosed, this`current, this`bytesConsumedTotal,
               this`startIndex, this`endIndex, this`pending,
               this`scratchPos, this`scratchLimit, this`tmpIsScratch, this`view, internalBuffer,
               this`keys, this`record, this`cachedHost, this`cachedApp
      ensures Valid() && Interned()
      ensures Agrees(AfterApp(old(record), old(pending)), Settled(r), record, pending)
      ensures r == Threw(BufferOverflow) ==> LongLine(old(pending), internalBuffer.Length)
    {
      ghost var P := pending;
      ghost var f, s := record, pending;
      var p := ParseProc();
      if p != Next {
        return Verdict(p);
      }
      Proceeds(ProcFlat(f, s), record, pending);
      f, s := record, pending;
      p := ParseName(MsgIdSlot);
      if p != Next {
        if p == Raising(BufferOverflow) {
          LongLineLater(stream, P, s, internalBuffer.Length);
        }
        return Verdict(p);
      }
      Proceeds(NameFieldFlat(f, MsgIdSlot, s), record, pending);
      s := pending;
      r := ParseSd();
      if r == Threw(BufferOverflow) {
        LongLineLater(stream, P, s, internalBuffer.Length);
      }
    }

    /** The reset, then `<PRI>`, the version `1` and the spaces after it. */
    method ParsePri() returns (p: Progress)
      requires Valid()
      modifies this`channel, this`channelClosed, this`current, this`bytesConsumedTotal,
               this`startIndex, this`endIndex, this`pending, this`record
      ensures Valid() && |pending| <= |old(pending)| && !p.Raising?
      ensures Agrees(PriFlat(old(pending)), p, record, pending)
    {
      ResetRecord();
      var ok := SkipPrefix(LT);
      if !ok {
        return Stop(false);
      }
      p := ParsePriValue();
    }

    /** `readDigits { priValue = priValue * 10 + it }`, then the version. */
    method ParsePriValue() returns (p: Progress)
      requires Valid() && record == Reset
      modifies this`channel, this`channelClosed, this`current, this`bytesConsumedTotal,
               this`startIndex, this`endIndex, this`pending, this`record
      ensures Valid() && |pending| <= |old(pending)| && !p.Raising?
      ensures Agrees(PriValueFlat(old(pending)), p, record, pending)
    {
      ghost var P := pending;
      var ok, digits := ReadDigits();
      PriDigits(P, ok, digits);
      record := record.(pri := Acc32(0, DigitValues(digits)));
      if !ok {
        return Stop(false);
      }
      p := ParseVersion();
    }

    /** `>`, the version `1`, and `skip()`, which must find a byte after the spaces. */
    method ParseVersion() returns (p: Progress)
      requires Valid()
      modifies this`channel, this`channelClosed, this`current, this`bytesConsumedTotal,
               this`startIndex, this`endIndex, this`pending
      ensures Valid() && |pending| <= |old(pending)| && !p.Raising?
      ensures Agrees(VersionFlat(record, old(pending)), p, record, pending)
    {
      var ok := SkipPrefix(GT);
      if !ok {
        return Stop(false);
      }
      ok := SkipPrefix(ONE);
      if !ok {
        return Stop(false);
      }
      ok := Skip(Space);
      p := if ok then Next else Stop(false);
    }

    /** `parseTs()` whose answer is ignored, then `skip()`. */
    method ParseTimestamp() returns (p: Progress)
      requires Valid()
      modifies this`channel, this`channelClosed, this`current, this`bytesConsumedTotal,
               this`startIndex, this`endIndex, this`pending,
               this`scratchPos, this`scratchLimit, this`tmpIsScratch, this`view, internalBuffer, this`record
      ensures Valid() && (!p.Raising? ==> |pending| <= |old(pending)|)
      ensures Agrees(TimestampFlat(old(record), old(pending)), p, record, pending)
      ensures p == Raising(BufferOverflow) ==> LongLine(old(pending), internalBuffer.Length)
    {
      ghost var P, f := pending, record;
      var t := ParseTs();
      if t.Fault? {
        TimestampFault(f, P, t.e);
        return Raising(t.e);
      }
      ghost var mid := pending;
      if t.Hit? {
        record := record.(ts := t.value);
      }
      SkipSpaces();
      TimestampStep(f, P, t, mid, record, pending);
      p := Next;
    }

    /** Stores a decoded name in its field, the host and app names through their caches. */
    method StoreName(slot: Slot, token: seq<byte>)
      requires Interned()
      modifies this`record, this`cachedHost, this`cachedApp
      ensures Interned()
      ensures record == Store(old(record), slot, Name(token))
      ensures slot == HostSlot ==> cachedApp == old(cachedApp)
      ensures slot == AppSlot ==> cachedHost == old(cachedHost)
      ensures slot == MsgIdSlot ==> cachedHost == old(cachedHost) && cachedApp == old(cachedApp)
    {
      match slot {
        case HostSlot =>
          var resolved := Resolve(cachedHost, token);
          record, cachedHost := record.(host := resolved.0), resolved.1;
        case AppSlot =>
          var resolved := Resolve(cachedApp, token);
          record, cachedApp := record.(app := resolved.0), resolved.1;
        case MsgIdSlot =>
          record := record.(msgid := if token == NIL then None else Some(Latin1(token)));
      }
    }

    /**
     * HOSTNAME, APP-NAME or MSGID, then `skip()`. The host and app tokens go
     * through their single-slot caches; the MSGID token is decoded afresh.
     */
    method ParseName(slot: Slot) returns (p: Progress)
      requires Valid() && Interned()
      modifies this`channel, this`channelClosed, this`current, this`bytesConsumedTotal,
               this`startIndex, this`endIndex, this`pending,
               this`scratchPos, this`scratchLimit, this`tmpIsScratch, this`view, internalBuffer, this`record, this`cachedHost, this`cachedApp
      ensures Valid() && Interned() && (!p.Raising? ==> |pending| <= |old(pending)|)
      ensures Agrees(NameFieldFlat(old(record), slot, old(pending)), p, record, pending)
      ensures p == Raising(BufferOverflow) ==> LongLine(old(pending), internalBuffer.Length)
    {
      ghost var P := pending;
      var t := ReadToken(Space);
      if t.Fault? {
        return Raising(t.e);
      }
      if t.NoHit? {
        NameEnd(old(record), slot, P);
        return Stop(false);
      }
      ghost var mid, f := pending, record;
      NameRest(slot, t.value);
      NameStep(f, slot, P, t.value, mid, record, pending);
      p := Next;
    }

    /** Stores the name read and skips the spaces after it. */
    method NameRest(slot: Slot, token: seq<byte>)
      requires Valid() && Interned()
      modifies this`channel, this`channelClosed, this`current, this`bytesConsumedTotal,
               this`startIndex, this`endIndex, this`pending,
               this`record, this`cachedHost, this`cachedApp
      ensures Valid() && Interned() && |pending| <= |old(pending)|
      ensures Agrees(SkipThen(Store(old(record), slot, Name(token)), old(pending)), Next, record, pending)
    {
      StoreName(slot, token);
      SkipSpaces();
    }

    /** PROCID: a decimal `Long`, or the nil value; any other token fails the record. */
    method ParseProc() returns (p: Progress)
      requires Valid()
      modifies this`channel, this`channelClosed, this`current, this`bytesConsumedTotal,
               this`startIndex, this`endIndex, this`pending,
               this`scratchPos, this`scratchLimit, this`tmpIsScratch, this`view, internalBuffer, this`record
      ensures Valid() && (!p.Raising? ==> |pending| <= |old(pending)|)
      ensures Agrees(ProcFlat(old(record), old(pending)), p, record, pending)
      ensures p == Raising(BufferOverflow) ==> LongLine(old(pending), internalBuffer.Length)
    {
      ghost var P := pending;
      var v := ProcValue();
      if v.Fault? {
        return Raising(v.e);
      }
      if v.NoHit? {
        return Stop(false);
      }
      assert ProcValueFlat(P).Exhausted? || ProcValueFlat(P) == Ok(v.value, pending);
      record := record.(proc := v.value);
      SkipSpaces();
      p := Next;
    }

    /** `readDigits` in `Long` arithmetic, or else `readUntil() && tmp == nilBytes`. */
    method ProcValue() returns (r: Scanned<Option<int>>)
      requires Valid()
      modifies this`channel, this`channelClosed, this`current, this`bytesConsumedTotal,
               this`startIndex, this`endIndex, this`pending,
               this`scratchPos, this`scratchLimit, this`tmpIsScratch, this`view, internalBuffer
      ensures Valid()
      ensures r == Fault(BufferOverflow) || Lexes(ProcValueFlat(old(pending)), r, pending)
      ensures r == Fault(BufferOverflow) ==> LongLine(old(pending), internalBuffer.Length)
      ensures !r.Fault? ==> |pending| <= |old(pending)|
    {
      ghost var P := pending;
      var ds := Digits();
      if ds.Hit? {
        return Hit(Some(Acc64(0, ds.value)));
      }
      ghost var Q := pending;
      var nil := ReadNil();
      if nil.Fault? {
        LongLineLater(stream, P, Q, internalBuffer.Length);
      }
      r := match nil
        case Hit(b) => if b then Hit(None) else NoHit
        case NoHit => NoHit
        case Fault(e) => Fault(e);
    }

    // -------------------------------------------------------------------------------------------
    // The message after the header

    /**
     * `readMessageAvailable()`: a view on the bytes of the chunk in hand (or
     * of the next chunk when it is used up) up to the next newline. The
     * newline itself is only consumed by a call that finds it first, and
     * that call answers null; null also stands for the end of the stream.
     */
    method ReadMessageAvailable() returns (r: Option<seq<byte>>)
      requires Valid()
      modifies this`channel, this`channelClosed, this`current, this`bytesConsumedTotal,
               this`startIndex, this`endIndex, this`pending,
               this`scratchPos, this`scratchLimit, this`tmpIsScratch, this`view, internalBuffer
      ensures Valid()
      ensures var P, A := old(pending), old(Avail()); var k := StopIndex(A, Newline);
              && |A| <= |P| && A == P[..|A|]
              && (0 < k ==> r == Some(P[..k]) && pending == P[k..])
              && (k == 0 < |A| ==> r == None && P[0] == NL && pending == P[1..])
              && (A == [] ==> r == None && pending == P)
    {
      ghost var P, A := pending, Avail();
      var result := ReadUntil(Newline, false);
      ghost var k := StopIndex(A, Newline);
      if result == Returned(true) {
        StopInFront(A, P[|A|..], Newline);
        assert P == A + P[|A|..];
      }
      var t := Tmp();
      if |t| > 0 {
        return Some(t);
      }
      if result == Returned(true) {
        SpanOfBytes(P, Token(Newline));
        var _ := SkipByte();
      }
      return None;
    }

    /**
     * `readMessageFully()`: the bytes up to the next newline, which is
     * consumed, gathered across chunks in `internalBuffer` when need be. When
     * the stream ends first the scratch buffer is answered without a flip:
     * its remaining bytes are those after the message, up to its capacity.
     */
    method ReadMessageFully() returns (r: Result<seq<byte>>)
      requires Valid()
      modifies this`channel, this`channelClosed, this`current, this`bytesConsumedTotal,
               this`startIndex, this`endIndex, this`pending,
               this`scratchPos, this`scratchLimit, this`tmpIsScratch, this`view, internalBuffer
      ensures Valid()
      ensures var P, n := old(pending), StopIndex(old(pending), Newline);
              && (r.Failure? ==> r.e == BufferOverflow && n > internalBuffer.Length)
              && (n < |P| && r.Success? ==> r.value == P[..n] && pending == P[n + 1..])
              && (n == |P| && r.Success? ==>
                    && channelClosed
                    && if tmpIsScratch
                       then |P| <= internalBuffer.Length && internalBuffer[..|P|] == P
                            && r.value == internalBuffer[|P|..]
                       else P == [] && r.value == [])
      ensures var P, A := old(pending), old(Avail());
              StopIndex(A, Newline) < |A| || StopIndex(P, Newline) <= internalBuffer.Length ==> r.Success?
    {
      ghost var P := pending;
      var result := ReadUntil(Newline, true);
      if result.Threw? {
        return Failure(result.e);
      }
      if result.b {
        SpanOfBytes(P, Token(Newline));
        var _ := SkipByte();
      } else if tmpIsScratch {
        assert result == Returned(false);
        assert scratchPos == |P| && scratchLimit == internalBuffer.Length;
        assert Tmp() == internalBuffer[scratchPos..scratchLimit] == internalBuffer[|P|..];
      }
      r := Success(Tmp());
    }

    /**
     * `readMessageFully()` as evidently intended: at the end of the stream the
     * scratch buffer is flipped before it is answered, so the message is the
     * bytes that were left, whichever way the stream ends.
     */
    method ReadMessageFlipped() returns (r: Result<seq<byte>>)
      requires Valid()
      modifies this`channel, this`channelClosed, this`current, this`bytesConsumedTotal,
               this`startIndex, this`endIndex, this`pending,
               this`scratchPos, this`scratchLimit, this`tmpIsScratch, this`view, internalBuffer
      ensures Valid()
      ensures var P, n := old(pending), StopIndex(old(pending), Newline);
              && (r.Failure? ==> r.e == BufferOverflow && n > internalBuffer.Length)
              && (r.Success? ==> r.value == P[..n])
              && (n < |P| && r.Success? ==> pending == P[n + 1..])
              && (n == |P| && r.Success? ==> channelClosed && IsSuffix(pending, P))
      ensures var P, A := old(pending), old(Avail());
              StopIndex(A, Newline) < |A| || StopIndex(P, Newline) <= internalBuffer.Length ==> r.Success?
    {
      ghost var P := pending;
      var result := ReadUntil(Newline, true);
      if result.Threw? {
        return Failure(result.e);
      }
      if result.b {
        SpanOfBytes(P, Token(Newline));
        var _ := SkipByte();
      } else if tmpIsScratch {
        scratchPos, scratchLimit := 0, scratchPos;
        SpanOfBytes(P, Token(Newline));
      } else {
        SpanOfBytes(P, Token(Newline));
      }
      r := Success(Tmp());
    }

    /**
     * `skipMessage()`: pass over the bytes up to the next newline and consume
     * it. When the stream ends first, the bytes of the last chunk stay unread.
     */
    method SkipMessage()
      requires Valid()
      modifies this`channel, this`channelClosed, this`current, this`bytesConsumedTotal,
               this`startIndex, this`endIndex, this`pending
      ensures Valid()
      ensures var P, m := old(pending), SpanOf(old(pending), NotNewline);
              && (m < |P| ==> P[m] == NL && pending == P[m + 1..])
              && (m == |P| ==> channelClosed && IsSuffix(pending, P) && NL !in pending)
    {
      ghost var P := pending;
      SpanOfBytes(P, NotNewline);
      var found := Skip(NotNewline);
      if !found {
        SpanOfBytes(pending, NotNewline);
        assert forall i :: 0 <= i < |pending| ==> pending[i] != NL;
      }
      var _ := SkipPrefix(NL);
    }

  }
}
