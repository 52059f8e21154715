/**
 * Where the canonical `parse5424` departs from RFC 5424, stated on the
 * reference reading `Rfc5424Flat`, which the chunked parser is proved to
 * agree with.
 */
module Rfc5424Properties {
  import opened Bytes
  import opened Scan
  import opened SdValue
  import opened Rfc5424Time
  import opened Rfc5424Flat
  import opened Rfc5424Codes
  import Rfc5424Facility
  import Rfc5424

  /** No byte of `t` stops `readUntil(c)`. */
  predicate Plain(t: seq<byte>, c: ByteClass)
  {
    forall i :: 0 <= i < |t| ==> !Stops(c, t[i])
  }

  /** A token of plain bytes followed by a stop byte is read whole, and the stop byte stays unread. */
  lemma {:induction false} TokenOf(t: seq<byte>, m: seq<byte>, c: ByteClass)
    requires Plain(t, c) && m != [] && Stops(c, m[0])
    ensures TokenFlat(t + m, c) == Ok(t, m)
  {
    SpanAll(t, Token(c));
    ScanStopped(t, m, c);
    assert (t + m)[|t|..] == m;
  }

  /** A run of digits followed by a non-digit is read whole. */
  lemma {:induction false} DigitsOf(ds: seq<byte>, m: seq<byte>)
    requires ds != [] && forall i :: 0 <= i < |ds| ==> IsDigit(ds[i])
    requires m != [] && !IsDigit(m[0])
    ensures DigitsFlat(ds + m) == Ok(DigitValues(ds), m)
  {
    SpanAll(ds, Digit);
    RunThenStop(ds, m, Digit);
    assert (ds + m)[..|ds|] == ds;
    assert (ds + m)[|ds|..] == m;
  }

  /**
   * `>`, the version `1` and `skip()`: no space is required after the `1`,
   * only a byte other than a space somewhere after it.
   */
  lemma VersionOf(f: Fields, m: seq<byte>)
    requires SpanOf(m, Space) < |m|
    ensures VersionFlat(f, [GT, ONE] + m) == Cont(f, m[SpanOf(m, Space)..])
  {
    var t := [GT, ONE] + m;
    assert StartsWith(t, GT) && StartsWith(t[1..], ONE);
    assert t[2..] == m;
    var k := SpanOf(m, Space);
    assert SkipFlat(m, Space) == Ok(true, m[k..]);
    assert VersionFlat(f, t) == Cont(f, m[k..]);
  }

  /**
   * PRI is neither bounded to 191 nor to three digits: any digit run between
   * `<` and `>` becomes `priValue`, its decimal value wrapped to 32 bits (so
   * exact up to nine digits). `facility()` is null from 192 on, while
   * `severity()` always answers.
   */
  lemma PriValue(ds: seq<byte>, m: seq<byte>)
    requires ds != [] && forall i :: 0 <= i < |ds| ==> IsDigit(ds[i])
    requires SpanOf(m, Space) < |m|
    ensures PriFlat([LT] + ds + [GT, ONE] + m)
         == Cont(Reset.(pri := Wrap32(Decimal(DigitValues(ds)))), m[SpanOf(m, Space)..])
    ensures |ds| <= 9 ==> PriFlat([LT] + ds + [GT, ONE] + m).f.pri == Decimal(DigitValues(ds))
  {
    PriOf(ds, m);
    PriNumber(ds);
  }

  /** `facility()` is null for every PRI outside 0..191; `severity()` always answers. */
  lemma FacilityRange(pri: int)
    ensures FacilityOf(pri).None? <==> pri < 0 || pri >= 192
    ensures SeverityOf(pri).Some?
  {
    assert |Rfc5424Facility.Facilities| == 24;
  }

  /** The value `readDigits` accumulates for a PRI digit run. */
  lemma PriNumber(ds: seq<byte>)
    requires forall i :: 0 <= i < |ds| ==> IsDigit(ds[i])
    ensures Acc32(0, DigitValues(ds)) == Wrap32(Decimal(DigitValues(ds)))
    ensures |ds| <= 9 ==> Acc32(0, DigitValues(ds)) == Decimal(DigitValues(ds))
  {
    Acc32Wraps(0, DigitValues(ds));
    if |ds| <= 9 {
      DigitValuesRange(ds);
      Acc32Small(DigitValues(ds));
    }
  }

  /** The PRI field read up to the first byte of the timestamp. */
  lemma PriOf(ds: seq<byte>, m: seq<byte>)
    requires ds != [] && forall i :: 0 <= i < |ds| ==> IsDigit(ds[i])
    requires SpanOf(m, Space) < |m|
    ensures PriFlat([LT] + ds + [GT, ONE] + m)
         == Cont(Reset.(pri := Acc32(0, DigitValues(ds))), m[SpanOf(m, Space)..])
  {
    var s := [LT] + ds + [GT, ONE] + m;
    assert s[1..] == ds + ([GT, ONE] + m);
    DigitsOf(ds, [GT, ONE] + m);
    VersionOf(Reset.(pri := Acc32(0, DigitValues(ds))), m);
  }

  /** A PRI of `2147483648` (the digit bytes below), one more than the largest `Int`, is read as the smallest. */
  lemma PriWraps(m: seq<byte>)
    requires SpanOf(m, Space) < |m|
    ensures PriFlat([LT] + INT_MAX_PLUS_ONE + [GT, ONE] + m).Cont?
    ensures PriFlat([LT] + INT_MAX_PLUS_ONE + [GT, ONE] + m).f.pri == -TWO_31
  {
    Int32Overflow();
    PriOf(INT_MAX_PLUS_ONE, m);
  }

  /** The decimal digits of `2^31`. */
  const INT_MAX_PLUS_ONE: seq<byte> := [0x32, 0x31, 0x34, 0x37, 0x34, 0x38, 0x33, 0x36, 0x34, 0x38]

  lemma Int32Overflow()
    ensures forall i :: 0 <= i < |INT_MAX_PLUS_ONE| ==> IsDigit(INT_MAX_PLUS_ONE[i])
    ensures Acc32(0, DigitValues(INT_MAX_PLUS_ONE)) == -TWO_31
  {
    Int32OverflowBytes();
    Int32OverflowDigits();
    Int32OverflowValue(DigitValues(INT_MAX_PLUS_ONE));
  }

  lemma Int32OverflowBytes()
    ensures forall i :: 0 <= i < |INT_MAX_PLUS_ONE| ==> IsDigit(INT_MAX_PLUS_ONE[i])
  {
    var a: seq<byte> := [0x32, 0x31, 0x34, 0x37, 0x34];
    var b: seq<byte> := [0x38, 0x33, 0x36, 0x34, 0x38];
    assert INT_MAX_PLUS_ONE == a + b;
    assert forall i :: 0 <= i < 5 ==> IsDigit(a[i]) && IsDigit(b[i]);
  }

  lemma Int32OverflowDigits()
    ensures DigitValues(INT_MAX_PLUS_ONE) == [2, 1, 4, 7, 4, 8, 3, 6, 4, 8]
  {
    var a: seq<byte> := [0x32, 0x31, 0x34, 0x37, 0x34];
    var b: seq<byte> := [0x38, 0x33, 0x36, 0x34, 0x38];
    assert INT_MAX_PLUS_ONE == a + b;
    DigitValuesAppend(a, b);
    FiveDigitValues(a);
    FiveDigitValues(b);
    assert [2, 1, 4, 7, 4] + [8, 3, 6, 4, 8] == [2, 1, 4, 7, 4, 8, 3, 6, 4, 8];
  }

  lemma FiveDigitValues(a: seq<byte>)
    requires |a| == 5
    ensures DigitValues(a) == [a[0] - ZERO, a[1] - ZERO, a[2] - ZERO, a[3] - ZERO, a[4] - ZERO]
  {
    assert DigitValues(a[4..]) == [a[4] - ZERO];
    assert DigitValues(a[3..]) == [a[3] - ZERO] + DigitValues(a[4..]);
    assert DigitValues(a[2..]) == [a[2] - ZERO] + DigitValues(a[3..]);
    assert DigitValues(a[1..]) == [a[1] - ZERO] + DigitValues(a[2..]);
  }

  /** Folding the digits of `2^31` in `Int` arithmetic: the last step wraps. */
  lemma Int32OverflowValue(ds: seq<int>)
    requires ds == [2, 1, 4, 7, 4, 8, 3, 6, 4, 8]
    ensures Acc32(0, ds) == -TWO_31
  {
    FoldHead(ds[..5]);
    Acc32Split(0, ds[..5], ds[5..]);
    assert ds[..5] + ds[5..] == ds;
    FoldTail(ds[5..]);
  }

  lemma FoldHead(ds: seq<int>)
    requires ds == [2, 1, 4, 7, 4]
    ensures Acc32(0, ds) == 21474
  {
    Acc32Step(0, ds[0..]);
    assert ds[0..][1..] == ds[1..];
    Acc32Step(2, ds[1..]);
    assert ds[1..][1..] == ds[2..];
    Acc32Step(21, ds[2..]);
    assert ds[2..][1..] == ds[3..];
    Acc32Step(214, ds[3..]);
    assert ds[3..][1..] == ds[4..];
    Acc32Step(2147, ds[4..]);
    assert ds[4..][1..] == ds[5..];
  }

  lemma FoldTail(ds: seq<int>)
    requires ds == [8, 3, 6, 4, 8]
    ensures Acc32(21474, ds) == -TWO_31
  {
    Acc32Step(21474, ds[0..]);
    assert ds[0..][1..] == ds[1..];
    Acc32Step(214748, ds[1..]);
    assert ds[1..][1..] == ds[2..];
    Acc32Step(2147483, ds[2..]);
    assert ds[2..][1..] == ds[3..];
    Acc32Step(21474836, ds[3..]);
    assert ds[3..][1..] == ds[4..];
    assert Acc32(214748364, ds[4..]) == Acc32(Wrap32(TWO_31), []);
  }

  /** Folding a split run is folding its second part from where the first ends. */
  lemma {:induction false} Acc32Split(v: int, a: seq<int>, b: seq<int>)
    ensures Acc32(v, a + b) == Acc32(Acc32(v, a), b)
    decreases |a|
  {
    if a != [] {
      assert (a + b)[1..] == a[1..] + b;
      Acc32Split(Wrap32(v * 10 + a[0]), a[1..], b);
    } else {
      assert a + b == b;
    }
  }

  /** One digit folded without wrap-around. */
  lemma Acc32Step(v: int, ds: seq<int>)
    requires ds != [] && IsInt32(v * 10 + ds[0])
    ensures Acc32(v, ds) == Acc32(v * 10 + ds[0], ds[1..])
  {
  }

  /** Folding digits in `Int` arithmetic is the decimal value wrapped to 32 bits. */
  lemma {:induction false} Acc32Wraps(v: int, ds: seq<int>)
    requires IsInt32(v)
    ensures Acc32(v, ds) == Wrap32(v * Pow10(|ds|) + Decimal(ds))
    decreases |ds|
  {
    if ds != [] {
      var p := Pow10(|ds| - 1);
      var u := v * 10 + ds[0];
      var w := Wrap32(u);
      Acc32Wraps(w, ds[1..]);
      CongruentScale(w, u, p);
      assert v * Pow10(|ds|) + Decimal(ds) == u * p + Decimal(ds[1..]) by {
        assert Pow10(|ds|) == 10 * p;
        MulAssoc(v, 10, p);
        MulAddRight(v * 10, ds[0], p);
      }
      Wrap32Congruent(w * p + Decimal(ds[1..]), u * p + Decimal(ds[1..]));
    }
  }

  lemma CongruentScale(a: int, b: int, p: int)
    requires (a - b) % TWO_32 == 0
    ensures (a * p - b * p) % TWO_32 == 0
  {
    var k := (a - b) / TWO_32;
    assert a - b == k * TWO_32;
    assert a * p - b * p == (a - b) * p;
    assert (a - b) * p == (k * p) * TWO_32;
  }

  lemma Wrap32Congruent(x: int, y: int)
    requires (x - y) % TWO_32 == 0
    ensures Wrap32(x) == Wrap32(y)
  {
    var k := (x - y) / TWO_32;
    assert x + TWO_31 == (y + TWO_31) + k * TWO_32;
    ModShift(y + TWO_31, k);
  }

  lemma ModShift(a: int, k: int)
    ensures (a + k * TWO_32) % TWO_32 == a % TWO_32
  {
    var q, r := a / TWO_32, a % TWO_32;
    assert a + k * TWO_32 == (q + k) * TWO_32 + r;
  }

  /** A fraction of ten digits or more is not padded: `parseTs` fails. */
  lemma LongFractionMisses(s: seq<byte>)
    requires StartsWith(s, DOT)
    requires 10 <= SpanOf(s[1..], Digit) < |s| - 1
    ensures FractionFlat(s).Miss?
  {
    var t := s[1..];
    SpanOfBytes(t, Digit);
    assert DigitsFlat(t).Ok?;
  }

  /**
   * A malformed timestamp does not fail the record: the field keeps its
   * reset value and reading goes on after the spaces that follow.
   */
  lemma BadTimestampSkipped(f: Fields, s: seq<byte>)
    requires TsFlat(s).Miss?
    ensures var r := TimestampFlat(f, s);
            && (r.Cont? || r.ReachedEnd?)
            && (r.Cont? ==> r.f == f && IsSuffix(r.rest, TsFlat(s).rest))
  {
  }

  /** The nil timestamp `-` leaves no timestamp and reading goes on after it. */
  lemma NilTimestamp(m: seq<byte>)
    requires m != [] && Stops(Space, m[0])
    ensures TsFlat([DASH] + m) == Ok(None, m)
  {
    assert [DASH] + m == NIL + m;
    TokenOf(NIL, m, Space);
  }

  /**
   * PROCID is digits or the nil value: any other token fails the record,
   * with the fields as they were.
   */
  lemma ProcRejects(f: Fields, t: seq<byte>, m: seq<byte>)
    requires t != [] && !IsDigit(t[0]) && t != NIL && Plain(t, Space)
    requires m != [] && Stops(Space, m[0])
    ensures ProcFlat(f, t + m) == Ret(false, f, m)
  {
    assert (t + m)[0] == t[0];
    TokenOf(t, m, Space);
  }

  /** A PROCID of digits is their value, folded in `Long` arithmetic. */
  lemma ProcDigits(ds: seq<byte>, m: seq<byte>)
    requires ds != [] && forall i :: 0 <= i < |ds| ==> IsDigit(ds[i])
    requires m != [] && !IsDigit(m[0])
    ensures ProcValueFlat(ds + m) == Ok(Some(Acc64(0, DigitValues(ds))), m)
  {
    DigitsOf(ds, m);
  }

  /**
   * The nil structured data `-` is not consumed: the record is complete and
   * the `-` stays at the front of the message.
   */
  lemma NilSdKept(f: Fields, m: seq<byte>)
    ensures SdFlat(f, [DASH] + m) == Ret(true, f, [DASH] + m)
  {
    assert SpanOf([DASH] + m, Space) == 0;
  }

  /**
   * An SD-ID ends only at a space or a newline: a `]` right after the name,
   * as in the parameterless element `[id]`, becomes part of the SD-ID.
   */
  lemma SdIdKeepsBracket(t: seq<byte>, m: seq<byte>)
    requires Plain(t, Space) && m != [] && Stops(Space, m[0])
    ensures KeyFlat(t + [RBRACKET] + m, Space) == Ok(Latin1(t + [RBRACKET]), m)
  {
    var u := t + [RBRACKET];
    assert Plain(u, Space) by {
      assert forall i :: 0 <= i < |t| ==> u[i] == t[i];
    }
    TokenOf(u, m, Space);
  }

  /**
   * Spaces between SD-PARAMs are not skipped: every PARAM-NAME after the
   * first starts with the space that separates it from the previous value.
   */
  lemma SecondKeyKeepsSpace(k: seq<byte>, m: seq<byte>)
    requires Plain(k, EqualsOrClose) && m != [] && m[0] == EQUALS
    ensures KeyFlat([SPACE] + k + m, EqualsOrClose) == Ok(" " + Latin1(k), m)
  {
    var u := [SPACE] + k;
    assert Plain(u, EqualsOrClose) by {
      assert forall i :: 1 <= i < |u| ==> u[i] == k[i - 1];
    }
    TokenOf(u, m, EqualsOrClose);
    assert Latin1(u) == " " + Latin1(k);
  }

  /**
   * A repeated `(SD-ID, PARAM-NAME)` overwrites: after two parameters with
   * the same name, the map holds the second value and is otherwise as
   * before the first.
   */
  lemma LaterParamWins(f: Fields, id: string, key: string, s1: seq<byte>, s2: seq<byte>)
    requires AssignFlat(f, id, key, s1).Cont?
    requires AssignFlat(AssignFlat(f, id, key, s1).f, id, key, s2).Cont?
    ensures var g := AssignFlat(AssignFlat(f, id, key, s1).f, id, key, s2).f;
            && g.sd == f.sd[(id, key) := ValueFlat(s2[1..]).value]
            && g == f.(sd := g.sd)
  {
  }

  /** A value that a single syslog line can carry. */
  predicate NoNewline(v: string)
  {
    forall i :: 0 <= i < |v| ==> v[i] != '\n'
  }

  /** Index of the first `"` of `v`, or `|v|`. */
  function FirstQuote(v: string): (q: nat)
    ensures q <= |v|
    ensures forall j :: 0 <= j < q ==> v[j] != '"'
    ensures q < |v| ==> v[q] == '"'
  {
    if v == [] || v[0] == '"' then 0 else 1 + FirstQuote(v[1..])
  }

  /** Text that decodes to bytes no quoted segment stops inside. */
  lemma PlainText(e: seq<byte>, t: string)
    requires Latin1(e) == t
    requires forall i :: 0 <= i < |t| ==> t[i] != '"' && t[i] != '\n'
    ensures Plain(e, Quote)
  {
    forall i | 0 <= i < |e| ensures !Stops(Quote, e[i]) {
      assert Latin1(e)[i] as int == e[i];
    }
  }

  /** The last segment of a quoted value: no `"` in the value, so the closing `"` ends it. */
  lemma QuotedLast(acc: string, v: string, e: seq<byte>, m: seq<byte>)
    requires forall i :: 0 <= i < |v| ==> v[i] != '\n' && v[i] != '"'
    requires Latin1(e) == Escape(v)
    ensures QuotedFlat(acc, e + [QUOTE] + m) == Ok(acc + v, m)
  {
    EscapeChars(v);
    PlainText(e, Escape(v));
    TokenOf(e, [QUOTE] + m, Quote);
    assert e + [QUOTE] + m == e + ([QUOTE] + m);
    QuotedRound(acc, e + [QUOTE] + m, e, [QUOTE] + m);
    UnescapeEscape(v);
    assert ([QUOTE] + m)[1..] == m;
  }

  /**
   * A segment that ends in the escaped `\"` of a quote in the value: the
   * loop decodes it, puts the `"` back and reads on after it.
   */
  lemma QuotedStep(acc: string, a: string, x: seq<byte>, rest: seq<byte>)
    requires forall i :: 0 <= i < |a| ==> a[i] != '\n' && a[i] != '"'
    requires Latin1(x) == Escape(a) + "\\"
    requires rest != [] && rest[0] == QUOTE
    ensures QuotedFlat(acc, x + rest) == QuotedFlat(acc + a + "\"", rest[1..])
  {
    var ea := Escape(a);
    EscapeChars(a);
    PlainText(x, ea + "\\");
    TokenOf(x, rest, Quote);
    QuotedRound(acc, x + rest, x, rest);
    UnescapeEscape(a);
    UnescapeAppend(ea, "\\");
    assert Unescape("\\") == [] && Unpaired("\\");
    var text := Latin1(x);
    assert Unpaired(text) && Unescape(text) == a;
    assert acc + Unescape(text) + "\"" == acc + a + "\"";
  }

  /**
   * The quoted PARAM-VALUE loop reads back what a sender escaped: each `"`
   * of the value arrives as `\"`, ends a segment with an unpaired backslash
   * and is put back by the loop; the closing `"` is consumed.
   */
  lemma {:induction false} QuotedReadsBack(acc: string, v: string, e: seq<byte>, m: seq<byte>)
    requires NoNewline(v)
    requires Latin1(e) == Escape(v)
    ensures QuotedFlat(acc, e + [QUOTE] + m) == Ok(acc + v, m)
    decreases |v|
  {
    var q := FirstQuote(v);
    if q == |v| {
      QuotedLast(acc, v, e, m);
    } else {
      var a, b := v[..q], v[q + 1..];
      QuoteSplit(v, q);
      var k := |Escape(a)|;
      SplitEscaped(Escape(a), Escape(b), e);
      var rest := e[k + 1..] + [QUOTE] + m;
      Regroup(e, k + 1, m);
      assert forall i :: 0 <= i < |a| ==> a[i] != '\n' && a[i] != '"' by {
        forall i | 0 <= i < |a| ensures a[i] != '\n' && a[i] != '"' {
          assert a[i] == v[i];
        }
      }
      QuotedStep(acc, a, e[..k + 1], rest);
      assert QuotedFlat(acc, e + [QUOTE] + m) == QuotedFlat(acc + a + "\"", e[k + 2..] + [QUOTE] + m);
      QuotedReadsBack(acc + a + "\"", b, e[k + 2..], m);
      TextAssoc(acc, a, "\"", b);
    }
  }

  lemma TextAssoc(w: string, x: string, y: string, z: string)
    ensures w + x + y + z == w + (x + (y + z))
  {
  }

  /** A value cut at its first quote, and its escaping cut there too. */
  lemma QuoteSplit(v: string, q: nat)
    requires q < |v| && v[q] == '"'
    requires NoNewline(v)
    ensures v == v[..q] + ("\"" + v[q + 1..])
    ensures Escape(v) == Escape(v[..q]) + "\\\"" + Escape(v[q + 1..])
    ensures NoNewline(v[q + 1..])
  {
    var a, b := v[..q], v[q + 1..];
    assert v == a + ("\"" + b);
    EscapeAppend(a, "\"" + b);
    assert ("\"" + b)[0] == '"' && ("\"" + b)[1..] == b;
    assert Escape("\"" + b) == "\\\"" + Escape(b);
    AppendAssoc(Escape(a), "\\\"", Escape(b));
  }

  /** The bytes of an escaped value around the escaped `\"` of its first quote. */
  lemma SplitEscaped(ea: string, eb: string, e: seq<byte>)
    requires Latin1(e) == ea + "\\\"" + eb
    ensures var k := |ea|;
            && k + 2 <= |e|
            && Latin1(e[..k + 1]) == ea + "\\"
            && e[k + 1] == QUOTE
            && Latin1(e[k + 2..]) == eb
  {
    var k := |ea|;
    Latin1Slice(e, 0, k + 1);
    Latin1Slice(e, k + 2, |e|);
    assert Latin1(e)[k + 1] as int == e[k + 1];
  }

  /** Cutting a segment off the front of `e` followed by the closing quote. */
  lemma {:induction false} Regroup(e: seq<byte>, j: nat, m: seq<byte>)
    requires j < |e|
    ensures e + [QUOTE] + m == e[..j] + (e[j..] + [QUOTE] + m)
    ensures (e[j..] + [QUOTE] + m)[1..] == e[j + 1..] + [QUOTE] + m
    ensures (e[j..] + [QUOTE] + m)[0] == e[j]
  {
    assert e == e[..j] + e[j..];
  }

  /** `parse5424` reads a quoted PARAM-VALUE back as the value the sender escaped. */
  lemma QuotedValueRoundTrip(v: string, e: seq<byte>, m: seq<byte>)
    requires NoNewline(v)
    requires Latin1(e) == Escape(v)
    ensures ValueFlat([QUOTE] + e + [QUOTE] + m) == Ok(v, m)
  {
    var s := [QUOTE] + e + [QUOTE] + m;
    Opened(e, m);
    ValueQuoted(s);
    assert ValueFlat(s) == QuotedFlat("", e + [QUOTE] + m);
    QuotedReadsBack("", v, e, m);
    assert "" + v == v;
  }

  lemma {:induction false} Opened(e: seq<byte>, m: seq<byte>)
    ensures StartsWith([QUOTE] + e + [QUOTE] + m, QUOTE)
    ensures ([QUOTE] + e + [QUOTE] + m)[1..] == e + [QUOTE] + m
  {
  }

  /** A character of the escaped text is a backslash or a character of the value. */
  lemma {:induction false} EscapeChars(v: string)
    ensures forall i :: 0 <= i < |Escape(v)| ==> Escape(v)[i] == '\\' || Escape(v)[i] in v
  {
    if v != [] {
      EscapeChars(v[1..]);
      var head: string := if MustEscape(v[0]) then ['\\', v[0]] else [v[0]];
      assert Escape(v) == head + Escape(v[1..]);
      forall i | 0 <= i < |Escape(v)| ensures Escape(v)[i] == '\\' || Escape(v)[i] in v {
        if i >= |head| {
          assert Escape(v)[i] == Escape(v[1..])[i - |head|];
        }
      }
    }
  }

  /** Escaping works character by character. */
  lemma {:induction false} EscapeAppend(x: string, y: string)
    ensures Escape(x + y) == Escape(x) + Escape(y)
  {
    if x == [] {
      assert x + y == y;
    } else {
      assert (x + y)[0] == x[0];
      assert (x + y)[1..] == x[1..] + y;
      EscapeAppend(x[1..], y);
      var h: string := if MustEscape(x[0]) then ['\\', x[0]] else [x[0]];
      assert Escape(x) == h + Escape(x[1..]);
      assert Escape(x + y) == h + Escape(x[1..] + y);
      AppendAssoc(h, Escape(x[1..]), Escape(y));
    }
  }

  // ---------------------------------------------------------------------------------------------
  // Two departures from the evident intent, each beside its correction

  /**
   * The structured data as evidently intended: the nil value `-` is consumed
   * with the spaces after it, so that the message follows; anything else is
   * read as before.
   */
  function SdIntended(f: Fields, s: seq<byte>): (r: Flat)
    ensures !r.Cont? && !r.Raise?
  {
    if StartsWith(s, DASH) then
      match SkipFlat(s[1..], Space)
      case Ok(_, rest) => Ret(true, f, rest)
      case _ => ReachedEnd
    else SdFlat(f, s)
  }

  /** With the correction, a record with nil structured data leaves exactly the message unread. */
  lemma NilSdConsumed(f: Fields, sp: seq<byte>, msg: seq<byte>)
    requires forall i :: 0 <= i < |sp| ==> sp[i] == SPACE
    requires msg != [] && !IsSpace(msg[0])
    ensures SdIntended(f, [DASH] + sp + msg) == Ret(true, f, msg)
  {
    var s := [DASH] + sp + msg;
    assert s[1..] == sp + msg;
    SpanAll(sp, Space);
    RunThenStop(sp, msg, Space);
    assert (sp + msg)[|sp|..] == msg;
  }

  /** As written, the same record leaves the `-` and the spaces in front of the message. */
  lemma NilSdLeftInMessage(f: Fields, sp: seq<byte>, msg: seq<byte>)
    ensures SdFlat(f, [DASH] + sp + msg) == Ret(true, f, [DASH] + sp + msg)
    ensures SdFlat(f, [DASH] + sp + msg) != SdIntended(f, [DASH] + sp + msg)
  {
    var s := [DASH] + sp + msg;
    assert SpanOf(s, Space) == 0;
    assert s[1..] == sp + msg;
    assert SdIntended(f, s).ReachedEnd? || SdIntended(f, s).rest != s by {
      SkipShorter(sp + msg);
    }
  }

  lemma SkipShorter(s: seq<byte>)
    ensures SkipFlat(s, Space).Ok? ==> |SkipFlat(s, Space).rest| <= |s|
  {
  }

  /**
   * `readMessageFully` at the end of the stream answers the part of the
   * scratch buffer after the bytes it gathered: a parser with the default
   * capacity of 2048, on a stream whose one chunk is a last line `hello`
   * without a newline, answers 2043 bytes, not `hello`.
   */
  method UnflippedLastLine() returns (r: Result<seq<byte>>)
    ensures r.Success? && |r.value| == 2043 && r.value != Ascii("hello")
  {
    var hello := Ascii("hello");
    SpanAll(hello, Token(Newline));
    var parser := new Rfc5424.Progressive2(hello, [5], 2048);
    assert parser.pending == hello && StopIndex(hello, Newline) == 5;
    r := parser.ReadMessageFully();
  }

  /** With the buffer flipped first, the same last line comes back as `hello`. */
  method FlippedLastLine() returns (r: Result<seq<byte>>)
    ensures r == Success(Ascii("hello"))
  {
    var hello := Ascii("hello");
    SpanAll(hello, Token(Newline));
    assert hello[..5] == hello;
    var parser := new Rfc5424.Progressive2(hello, [5], 2048);
    assert parser.pending == hello && StopIndex(hello, Newline) == 5;
    r := parser.ReadMessageFlipped();
  }
}
