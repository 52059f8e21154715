/**
 * The byte classes the syslog scanners test and the scans they perform,
 * stated on one contiguous byte sequence (no chunks). The chunked cursors
 * are proved against these.
 */
module Scan {
  import opened Bytes

  /** `isSpace` of the parsers: blank, tab and backspace. */
  predicate IsSpace(b: byte) { b == SPACE || b == TAB || b == BACKSPACE }

  predicate IsDigit(b: byte) { ZERO <= b <= NINE }

  /**
   * The byte tests the parsers hand to `skip` and `readUntil`, and the digit
   * test of `readDigits`. `Until(c)` holds for the bytes `readUntil(c)`
   * reads past.
   */
  datatype ByteClass =
    | Space          // isSpace
    | Digit          // the digits of readDigits
    | EqualsOrClose  // `=` or `]`: the end of a PARAM-NAME
    | Quote          // `"`: the end of a quoted segment
    | SpaceOrClose   // isSpace or `]`: the end of an unquoted PARAM-VALUE
    | Newline        // the end of a message
    | NotNewline     // the bytes skipMessage passes over
    | Until(stop: ByteClass)

  predicate In(c: ByteClass, b: byte)
  {
    match c
    case Space => IsSpace(b)
    case Digit => IsDigit(b)
    case EqualsOrClose => b == EQUALS || b == RBRACKET
    case Quote => b == QUOTE
    case SpaceOrClose => IsSpace(b) || b == RBRACKET
    case Newline => b == NL
    case NotNewline => b != NL
    case Until(stop) => !In(stop, b) && b != NL
  }

  /** `readUntil` stops at a byte of its class and at every newline. */
  predicate Stops(c: ByteClass, b: byte) { In(c, b) || b == NL }

  /** Length of the longest prefix of `s` made of bytes of class `c`. */
  function SpanOf(s: seq<byte>, c: ByteClass): (n: nat)
    ensures n <= |s|
  {
    if s == [] || !In(c, s[0]) then 0 else 1 + SpanOf(s[1..], c)
  }

  /** The span is made of class bytes and ends at the first byte outside the class. */
  lemma {:induction false} SpanOfBytes(s: seq<byte>, c: ByteClass)
    ensures forall i :: 0 <= i < SpanOf(s, c) ==> In(c, s[i])
    ensures SpanOf(s, c) < |s| ==> !In(c, s[SpanOf(s, c)])
  {
    if s != [] && In(c, s[0]) {
      SpanOfBytes(s[1..], c);
    }
  }

  /** The bytes `readUntil(c)` reads past: neither in class `c` nor a newline. */
  function Token(c: ByteClass): ByteClass
  {
    Until(c)
  }

  /** Index of the first byte at which `readUntil(c)` stops, or `|s|` if none. */
  function StopIndex(s: seq<byte>, c: ByteClass): (n: nat)
    ensures n <= |s|
  {
    SpanOf(s, Token(c))
  }

  /**
   * Somewhere in `s`, more than `cap` bytes follow one another without a
   * newline: a line too long for a scratch buffer of capacity `cap`.
   */
  ghost predicate LongLine(s: seq<byte>, cap: nat)
  {
    exists i :: 0 <= i <= |s| && StopIndex(s[i..], Newline) > cap
  }

  /** `readUntil(c)` never reads past a newline, so its token lies within one line. */
  lemma {:induction false} TokenWithinLine(s: seq<byte>, c: ByteClass)
    ensures StopIndex(s, c) <= StopIndex(s, Newline)
  {
    if s != [] && In(Token(c), s[0]) {
      assert In(Token(Newline), s[0]);
      TokenWithinLine(s[1..], c);
      assert StopIndex(s, c) == 1 + StopIndex(s[1..], c);
      assert StopIndex(s, Newline) == 1 + StopIndex(s[1..], Newline);
    }
  }

  /** A token longer than `cap` bytes is a line longer than `cap`. */
  lemma LongToken(s: seq<byte>, c: ByteClass, cap: nat)
    requires StopIndex(s, c) > cap
    ensures LongLine(s, cap)
  {
    TokenWithinLine(s, c);
    assert s[0..] == s;
  }

  /**
   * Two final segments of one stream, `q` no longer than `p`: a long line
   * in `q` is one in `p`.
   */
  lemma LongLineLater(stream: seq<byte>, p: seq<byte>, q: seq<byte>, cap: nat)
    requires IsTail(p, stream) && IsTail(q, stream) && |q| <= |p|
    requires LongLine(q, cap)
    ensures LongLine(p, cap)
  {
    DropIsSlice(stream, |stream| - |p|);
    DropIsSlice(stream, |stream| - |q|);
    var i :| 0 <= i <= |q| && StopIndex(q[i..], Newline) > cap;
    var j := |p| - |q| + i;
    assert p[j..] == q[i..];
  }

  /** A sequence made only of class bytes is its own span. */
  lemma {:induction false} SpanAll(s: seq<byte>, c: ByteClass)
    requires forall k :: 0 <= k < |s| ==> In(c, s[k])
    ensures SpanOf(s, c) == |s|
  {
    if s != [] {
      SpanAll(s[1..], c);
    }
  }

  /** The span of a concatenation: it runs on into `y` only if all of `x` is in the class. */
  lemma {:induction false} SpanOfConcat(x: seq<byte>, y: seq<byte>, c: ByteClass)
    ensures SpanOf(x + y, c) == if SpanOf(x, c) == |x| then |x| + SpanOf(y, c) else SpanOf(x, c)
  {
    if x == [] {
      assert x + y == y;
    } else {
      assert (x + y)[0] == x[0];
      assert (x + y)[1..] == x[1..] + y;
      SpanOfConcat(x[1..], y, c);
    }
  }

  /** Two runs of class bytes make a run. */
  lemma {:induction false} RunAppend(x: seq<byte>, y: seq<byte>, c: ByteClass)
    requires SpanOf(x, c) == |x| && SpanOf(y, c) == |y|
    ensures SpanOf(x + y, c) == |x + y|
  {
    SpanOfConcat(x, y, c);
  }

  /** A run followed by a byte outside the class: the span ends there. */
  lemma {:induction false} RunThenStop(x: seq<byte>, rest: seq<byte>, c: ByteClass)
    requires SpanOf(x, c) == |x| && rest != [] && !In(c, rest[0])
    ensures SpanOf(x + rest, c) == |x|
  {
    SpanOfConcat(x, rest, c);
  }

  /** After a run of class bytes, the span goes on into what follows. */
  lemma {:induction false} RunThen(x: seq<byte>, y: seq<byte>, c: ByteClass)
    requires SpanOf(x, c) == |x|
    ensures SpanOf(x + y, c) == |x| + SpanOf(y, c)
    ensures (x + y)[..|x| + SpanOf(y, c)] == x + y[..SpanOf(y, c)]
    ensures (x + y)[|x| + SpanOf(y, c)..] == y[SpanOf(y, c)..]
  {
    SpanOfConcat(x, y, c);
    var k := SpanOf(y, c);
    assert (x + y)[..|x| + k] == x + y[..k];
  }

  /**
   * A scan of `s[from..]` that has passed `i - from` token bytes: the stop
   * index of `s[from..to]` lies at or after `i`, and exactly at `i` when
   * `s[i]` stops the scan.
   */
  lemma {:induction false} ScannedTo(s: seq<byte>, from: nat, i: nat, to: nat, c: ByteClass)
    requires from <= i <= to <= |s|
    requires SpanOf(s[from..i], Token(c)) == i - from
    ensures i - from <= StopIndex(s[from..to], c)
    ensures s[from..to][..i - from] == s[from..i]
    ensures i == to ==> StopIndex(s[from..to], c) == to - from
    ensures i < to && Stops(c, s[i]) ==> StopIndex(s[from..to], c) == i - from
    ensures i < to && !Stops(c, s[i]) ==> StopIndex(s[from..to], c) > i - from
  {
    var x, y := s[from..i], s[i..to];
    assert s[from..to] == x + y;
    ScanStopped(x, y, c);
    if i < to {
      assert y[0] == s[i];
    }
  }

  /** A scan that has passed the token bytes `x` stops at the front of `y` or further on. */
  lemma {:induction false} ScanStopped(x: seq<byte>, y: seq<byte>, c: ByteClass)
    requires SpanOf(x, Token(c)) == |x|
    ensures (x + y)[..|x|] == x
    ensures y == [] || Stops(c, y[0]) ==> StopIndex(x + y, c) == |x|
    ensures y != [] && !Stops(c, y[0]) ==> StopIndex(x + y, c) > |x|
  {
    SpanOfConcat(x, y, Token(c));
    assert (x + y)[..|x|] == x;
  }

  /**
   * Where `readUntil(c)` stops in a chunk `d` followed by `rest`: inside the
   * chunk when the chunk holds a stop byte, and otherwise in `rest`.
   */
  lemma {:induction false} StopInFront(d: seq<byte>, rest: seq<byte>, c: ByteClass)
    ensures var k, m := StopIndex(d, c), StopIndex(d + rest, c);
            && (k < |d| ==> m == k && (d + rest)[..m] == d[..k] && (d + rest)[m..] == d[k..] + rest)
            && (k == |d| ==> m == |d| + StopIndex(rest, c) && SpanOf(d, Token(c)) == |d|)
  {
    SpanOfConcat(d, rest, Token(c));
    var k := StopIndex(d, c);
    if k < |d| {
      var s := d + rest;
      assert s[..k] == d[..k];
      assert s[k..] == d[k..] + rest;
    }
  }

  /** When the first byte is in the class, the span is that byte and the span of the rest. */
  lemma SpanFromSecond(s: seq<byte>, c: ByteClass)
    requires s != [] && In(c, s[0])
    ensures SpanOf(s, c) == 1 + SpanOf(s[1..], c)
    ensures s[..SpanOf(s, c)] == [s[0]] + s[1..][..SpanOf(s[1..], c)]
    ensures forall k :: 0 <= k <= |s| - 1 ==> s[1..][k..] == s[1 + k..]
  {
  }

  /** The values handed to the accumulator of `readDigits`, one per digit. */
  function DigitValues(s: seq<byte>): (r: seq<int>)
    ensures |r| == |s|
  {
    if s == [] then [] else [s[0] - ZERO] + DigitValues(s[1..])
  }

  lemma {:induction false} DigitValuesAppend(a: seq<byte>, b: seq<byte>)
    ensures DigitValues(a + b) == DigitValues(a) + DigitValues(b)
  {
    if a == [] {
      assert a + b == b;
    } else {
      assert (a + b)[1..] == a[1..] + b;
      DigitValuesAppend(a[1..], b);
    }
  }

  /** The values of a digit run are decimal digits. */
  lemma {:induction false} DigitValuesRange(s: seq<byte>)
    requires forall i :: 0 <= i < |s| ==> IsDigit(s[i])
    ensures forall i :: 0 <= i < |s| ==> 0 <= DigitValues(s)[i] <= 9
  {
    if s != [] {
      DigitValuesRange(s[1..]);
      assert forall i :: 1 <= i < |s| ==> DigitValues(s)[i] == DigitValues(s[1..])[i - 1];
    }
  }

  /** Folding digits with `v = v * 10 + d` in Kotlin `Int` arithmetic. */
  function Acc32(v: int, ds: seq<int>): int
    decreases |ds|
  {
    if ds == [] then v else Acc32(Wrap32(v * 10 + ds[0]), ds[1..])
  }

  /** Folding digits with `v = v * 10 + d` in Kotlin `Long` arithmetic. */
  function Acc64(v: int, ds: seq<int>): int
    decreases |ds|
  {
    if ds == [] then v else Acc64(Wrap64(v * 10 + ds[0]), ds[1..])
  }

  /** The decimal value of a digit sequence, without any width limit. */
  function Decimal(ds: seq<int>): int
  {
    if ds == [] then 0 else ds[0] * Pow10(|ds| - 1) + Decimal(ds[1..])
  }

  function Pow10(n: nat): (r: nat)
    ensures r >= 1
  {
    if n == 0 then 1 else 10 * Pow10(n - 1)
  }

  /**
   * As long as the running value stays a valid `Int`, folding digits gives the
   * decimal value: wrap-around only happens for numbers of `Int` overflow size.
   */
  lemma {:induction false} Acc32NoWrap(v: int, ds: seq<int>)
    requires forall i :: 0 <= i < |ds| ==> 0 <= ds[i] <= 9
    requires 0 <= v
    requires v * Pow10(|ds|) + Decimal(ds) < TWO_31
    ensures Acc32(v, ds) == v * Pow10(|ds|) + Decimal(ds)
    decreases |ds|
  {
    if ds != [] {
      var p := Pow10(|ds| - 1);
      var v' := v * 10 + ds[0];
      DecimalNonNegative(ds[1..]);
      assert v * Pow10(|ds|) == (v * 10) * p by {
        assert Pow10(|ds|) == 10 * p;
        MulAssoc(v, 10, p);
      }
      assert (v * 10) * p + ds[0] * p == v' * p by {
        MulAddRight(v * 10, ds[0], p);
      }
      assert v' <= v' * p by {
        MulMonotone(v', p);
      }
      assert Wrap32(v') == v';
      Acc32NoWrap(v', ds[1..]);
    }
  }

  lemma MulAssoc(a: int, b: int, c: int)
    ensures a * (b * c) == (a * b) * c
  {
  }

  lemma MulAddRight(a: int, b: int, c: int)
    ensures a * c + b * c == (a + b) * c
  {
  }

  lemma MulMonotone(a: int, p: int)
    requires 0 <= a && 1 <= p
    ensures a <= a * p
  {
    assert a * p == a + a * (p - 1);
  }

  lemma {:induction false} DecimalNonNegative(ds: seq<int>)
    requires forall i :: 0 <= i < |ds| ==> 0 <= ds[i] <= 9
    ensures 0 <= Decimal(ds)
  {
    if ds != [] {
      DecimalNonNegative(ds[1..]);
    }
  }

  lemma {:induction false} Pow10Monotone(a: nat, b: nat)
    requires a <= b
    ensures Pow10(a) <= Pow10(b)
    decreases b
  {
    if a < b {
      Pow10Monotone(a, b - 1);
    }
  }

  /** A run of `n` decimal digits stays below `10^n`. */
  lemma {:induction false} DecimalBelow(ds: seq<int>)
    requires forall i :: 0 <= i < |ds| ==> 0 <= ds[i] <= 9
    ensures 0 <= Decimal(ds) < Pow10(|ds|)
  {
    if ds != [] {
      DecimalBelow(ds[1..]);
      var p := Pow10(|ds| - 1);
      MulAddRight(ds[0], 1, p);
      MulLe(0, ds[0], p);
      MulLe(ds[0] + 1, 10, p);
    }
  }

  lemma MulLe(a: int, b: int, p: int)
    requires a <= b && 0 <= p
    ensures a * p <= b * p
  {
    assert b * p - a * p == (b - a) * p;
  }

  /**
   * The nanosecond field: at most nine digits folded in `Int` arithmetic
   * never wrap, and give the decimal value, below `10^9`.
   */
  lemma Acc32Small(ds: seq<int>)
    requires forall i :: 0 <= i < |ds| ==> 0 <= ds[i] <= 9
    requires |ds| <= 9
    ensures 0 <= Acc32(0, ds) == Decimal(ds) < Pow10(|ds|) <= 1_000_000_000
  {
    DecimalBelow(ds);
    Pow10Monotone(|ds|, 9);
    assert Pow10(9) == 1_000_000_000;
    Acc32NoWrap(0, ds);
  }
}
