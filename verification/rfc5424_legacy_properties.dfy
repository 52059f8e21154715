/**
 * How the two older parsers differ from the canonical one, stated on
 * `Rfc5424Legacy`.
 */
module Rfc5424LegacyProperties {
  import opened Bytes
  import opened Scan
  import opened SdValue
  import Rfc5424Flat
  import Rfc5424
  import opened Rfc5424Legacy

  /** `<>` is a PRI: `readDigits` accepts an empty digit run, and `priValue` stays 0. */
  lemma EmptyPri(st: State, m: seq<byte>)
    requires SpanOf(m, Space) < |m|
    ensures PriStep(st, [LT, GT, ONE] + m) == Go(st.(pri := 0), m[SpanOf(m, Space)..])
  {
    var t := [GT] + ([ONE] + m);
    Cons3(LT, GT, ONE, m);
    assert ([LT] + t)[1..] == t;
    assert SpanOf(t, Digit) == 0;
    assert t[..0] == [];
    assert Digits(t) == DigitRun(true, [], t);
    VersionOf(st.(pri := 0), m);
  }

  /** `>1` followed by spaces and a further byte. */
  lemma VersionOf(st: State, m: seq<byte>)
    requires SpanOf(m, Space) < |m|
    ensures VersionStep(st, [GT] + ([ONE] + m)) == Go(st, m[SpanOf(m, Space)..])
  {
    var r := [GT] + ([ONE] + m);
    assert r[0] == GT && r[1..] == [ONE] + m;
    var close := SkipPrefix(r, GT);
    assert close == Moved(true, [ONE] + m);
    assert ([ONE] + m)[1..] == m;
    var version := SkipPrefix(close.rest, ONE);
    assert version == Moved(true, m);
    assert Skip(m, Space) == Moved(true, m[SpanOf(m, Space)..]);
  }

  lemma Cons3(a: byte, b: byte, c: byte, m: seq<byte>)
    ensures [a, b, c] + m == [a] + ([b] + ([c] + m))
  {
  }

  /**
   * A nil PROCID is read as zero digits: `proc` becomes 0 and the `-` is left
   * for MSGID, which reads it as its own nil value. The record then ends
   * successfully with the real MSGID at the front of the message.
   */
  lemma NilProcShiftsFields(v: Variant, st: State, id: seq<byte>, m: seq<byte>)
    requires Sound(st)
    requires id != [] && id[0] != LBRACKET && !IsSpace(id[0]) && id[0] != NL
    ensures AfterApp(v, st, [DASH, SPACE] + id + m)
         == Done(Returned(true), st.(proc := Some(0), msgid := None, sd := map[], tmp := View(NIL)), id + m)
  {
    var s := [DASH] + ([SPACE] + (id + m));
    assert [DASH, SPACE] + id + m == s;
    ProcZeroDigits(v, st, s);
    MsgIdNil(v, st.(proc := Some(0)), id + m);
    NoElements(v, st.(proc := Some(0), tmp := View(NIL), msgid := None, sd := map[]), id + m);
  }

  /** PROCID with no digits before a non-digit: 0, nothing consumed. */
  lemma ProcZeroDigits(v: Variant, st: State, s: seq<byte>)
    requires s != [] && !IsDigit(s[0]) && !IsSpace(s[0])
    ensures ProcStep(v, st, s) == Go(st.(proc := Some(0)), s)
  {
    assert SpanOf(s, Digit) == 0;
    assert SpanOf(s, Space) == 0;
    assert s[..0] == [];
  }

  /** MSGID `-` followed by one space and a token: none, and `tmp` views the `-`. */
  lemma MsgIdNil(v: Variant, st: State, r: seq<byte>)
    requires r != [] && !IsSpace(r[0])
    ensures MsgIdStep(v, st, [DASH] + ([SPACE] + r)) == Go(st.(tmp := View(NIL), msgid := None), r)
  {
    var s := [DASH] + ([SPACE] + r);
    assert s[1..] == [SPACE] + r;
    assert SpanOf(s[1..], Token(Space)) == 0;
    assert StopIndex(s, Space) == 1;
    assert s[..1] == NIL;
    assert ([SPACE] + r)[1..] == r;
    assert SpanOf(r, Space) == 0;
  }

  /** Anything but `[` after MSGID: no structured data, a successful record. */
  lemma NoElements(v: Variant, st: State, r: seq<byte>)
    requires Rfc5424.KeysOk(st.keys)
    requires r != [] && r[0] != LBRACKET && !IsSpace(r[0])
    ensures Elements(v, st, r) == Done(Returned(true), st, r)
  {
    assert SpanOf(r, Space) == 0;
  }

  /**
   * `Oldest` answers `host()` from the cache: after a nil HOSTNAME the text of
   * the last non-nil one is still reported, where `Older` reports null.
   */
  lemma OldestHostFromCache(st: State, h: seq<byte>, m: seq<byte>)
    requires Sound(st) && h != NIL && st.cachedHost == (h, Some(Latin1(h)))
    requires m != [] && Stops(Space, m[0])
    ensures var oldest := NameStep(Oldest, st, HostName, [DASH] + m);
            oldest.Go? && Host(Oldest, oldest.st) == Some(Latin1(h))
    ensures var older := NameStep(Older, st, HostName, [DASH] + m);
            older.Go? && Host(Older, older.st) == None
  {
    var s := [DASH] + m;
    assert s[1..] == m;
    assert SpanOf(m, Token(Space)) == 0;
    assert StopIndex(s, Space) == 1;
    assert s[..1] == NIL;
  }

  /**
   * A record that fails at PRI leaves every other field as the previous
   * record left it (the canonical parser resets them all first).
   */
  lemma PriFailureKeepsRecord(v: Variant, accepts: seq<byte> -> bool, st: State, r: seq<byte>)
    requires Sound(st) && PriStep(st, r).Done?
    ensures var res := Parse(v, accepts, st, r);
            && res.out == Returned(false)
            && res.st == st.(pri := res.st.pri)
  {
  }

  /**
   * A record whose timestamp step fails keeps HOSTNAME, APP-NAME, PROCID,
   * MSGID, the structured data and the timestamp of the previous record.
   */
  lemma TimestampFailureKeepsRecord(v: Variant, accepts: seq<byte> -> bool, st: State, r: seq<byte>)
    requires Sound(st) && PriStep(st, r).Go?
    requires TsStep(v, accepts, PriStep(st, r).st, PriStep(st, r).rest).Done?
    ensures var res := Parse(v, accepts, st, r);
            res.st == st.(pri := res.st.pri, tmp := res.st.tmp)
  {
  }

  /**
   * The quoted PARAM-VALUE loop of the older parsers reads what the canonical
   * reference reads, wherever the latter reaches a closing quote.
   */
  lemma {:induction false} QuotedAgrees(v: Variant, tmp: Tmp, acc: string, r: seq<byte>)
    requires Rfc5424Flat.QuotedFlat(acc, r).Ok?
    ensures Quoted(v, tmp, acc, r) == Got(Rfc5424Flat.QuotedFlat(acc, r).value, Quoted(v, tmp, acc, r).tmp, Rfc5424Flat.QuotedFlat(acc, r).rest)
    decreases |r|
  {
    var rd := ReadUntil(v, r, Quote, true, tmp);
    var k := StopIndex(r, Quote);
    assert Rfc5424Flat.TokenFlat(r, Quote) == Rfc5424Flat.Ok(r[..k], r[k..]);
    assert rd.out == Returned(true);
    var text := Latin1(r[..k]);
    assert QuotedSegment(v, tmp, r) == Got(text, rd.tmp, r[k..][1..]);
    if Unpaired(text) {
      QuotedAgrees(v, rd.tmp, acc + Unescape(text) + "\"", r[k..][1..]);
    }
  }

  /**
   * After a record whose MSGID `tmp` still shows, `readMessageAvailable` of
   * `Older` on a last chunk without a newline consumes the chunk and answers
   * all of it: the duplicate the MSGID view lives on is moved to the message.
   */
  lemma UnterminatedMessage(v: Variant, accepts: seq<byte> -> bool, st: State, r: seq<byte>, msg: seq<byte>)
    requires Sound(st) && Parse(v, accepts, st, r).out == Returned(true) && Parse(v, accepts, st, r).rest == msg
    requires msg != [] && NL !in msg
    ensures ReadMessageAvailable(Parse(v, accepts, st, r).st.tmp, msg) == (Some(View(msg)), View(msg), [])
  {
    ViewFollowsMessage(Parse(v, accepts, st, r).st.tmp, msg);
  }

  lemma ViewFollowsMessage(tmp: Tmp, msg: seq<byte>)
    requires tmp.View? && msg != [] && NL !in msg
    ensures ReadMessageAvailable(tmp, msg) == (Some(View(msg)), View(msg), [])
  {
    SpanAll(msg, Token(Newline));
  }

  /**
   * `skipMessage` of `Oldest` on a last line without a newline consumes its
   * first byte; `Older` consumes nothing.
   */
  lemma SkipMessageAtEnd(r: seq<byte>)
    requires r != [] && NL !in r
    ensures SkipMessage(Oldest, r) == r[1..] && SkipMessage(Older, r) == r
  {
    SpanAll(r, NotNewline);
  }
}
