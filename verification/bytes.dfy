/**
 * Shared vocabulary: bytes, optional values, the ASCII codes the parsers
 * compare against, the concatenation of a channel's chunks, the byte-to-text
 * decoding and the wrap-around of the JVM's 32- and 64-bit integers.
 */
module Bytes {

  /** A JVM `Byte` read as an unsigned value (the parsers only compare it with ASCII codes). */
  type byte = b: int | 0 <= b < 256

  /** Kotlin's nullable types. */
  datatype Option<+T> = None | Some(value: T)

  const NL: byte := 10     // '\n'
  const TAB: byte := 9     // '\t'
  const BACKSPACE: byte := 8  // '\b'
  const SPACE: byte := 32
  const QUOTE: byte := 34  // '"'
  const PLUS: byte := 43   // '+'
  const DASH: byte := 45   // '-'
  const DOT: byte := 46    // '.'
  const ZERO: byte := 48   // '0'
  const ONE: byte := 49    // '1'
  const NINE: byte := 57   // '9'
  const COLON: byte := 58  // ':'
  const LT: byte := 60     // '<'
  const EQUALS: byte := 61 // '='
  const GT: byte := 62     // '>'
  const UPPER_T: byte := 84  // 'T'
  const UPPER_Z: byte := 90  // 'Z'
  const LBRACKET: byte := 91 // '['
  const BACKSLASH: byte := 92 // '\\'
  const RBRACKET: byte := 93 // ']'

  /** The one-byte buffer `nilBytes` the parsers compare tokens with. */
  const NIL: seq<byte> := [DASH]

  /** All bytes a channel delivers, chunk after chunk. */
  function Concat(chunks: seq<seq<byte>>): seq<byte>
  {
    if chunks == [] then [] else chunks[0] + Concat(chunks[1..])
  }

  lemma {:induction false} ConcatAppend(a: seq<seq<byte>>, b: seq<seq<byte>>)
    ensures Concat(a + b) == Concat(a) + Concat(b)
  {
    if a == [] {
      assert a + b == b;
    } else {
      assert (a + b)[1..] == a[1..] + b;
      ConcatAppend(a[1..], b);
    }
  }

  /** The tail of a concatenation whose first part is non-empty. */
  lemma TailOfAppend<T>(a: seq<T>, b: seq<T>)
    requires a != []
    ensures (a + b)[0] == a[0] && (a + b)[1..] == a[1..] + b
  {
  }

  lemma AppendAssoc<T>(a: seq<T>, b: seq<T>, c: seq<T>)
    ensures a + (b + c) == (a + b) + c
  {
  }

  /** Cutting a concatenation where its parts meet gives the parts back. */
  lemma {:induction false} SplitAt(x: seq<byte>, y: seq<byte>)
    ensures (x + y)[..|x|] == x && (x + y)[|x|..] == y
  {
  }

  /** `b` is a final segment of `a`. */
  predicate IsSuffix(b: seq<byte>, a: seq<byte>)
  {
    |b| <= |a| && b == a[|a| - |b|..]
  }

  /** `s` without its first `k` bytes, dropped one at a time. */
  function Drop(s: seq<byte>, k: nat): (r: seq<byte>)
  {
    if k == 0 || s == [] then s else Drop(s[1..], k - 1)
  }

  /** `b` is what is left of `a` once some of its first bytes are dropped. */
  predicate IsTail(b: seq<byte>, a: seq<byte>)
  {
    |b| <= |a| && b == Drop(a, |a| - |b|)
  }

  /** Dropping `k` bytes is slicing from `k`. */
  lemma {:induction false} DropIsSlice(s: seq<byte>, k: nat)
    requires k <= |s|
    ensures Drop(s, k) == s[k..]
  {
    if k > 0 {
      DropIsSlice(s[1..], k - 1);
      assert s[1..][k - 1..] == s[k..];
    }
  }

  /** Dropping `k` more bytes after `m`. */
  lemma DropMore(s: seq<byte>, m: nat, k: nat)
    requires m + k <= |s|
    ensures |Drop(s, m)| == |s| - m && Drop(s, m)[k..] == Drop(s, m + k)
  {
    DropIsSlice(s, m);
    DropIsSlice(s, m + k);
  }

  /** Dropping a non-empty prefix and one more byte leaves a final segment. */
  lemma {:induction false} SuffixAfter(x: seq<byte>, y: seq<byte>)
    requires y != []
    ensures IsSuffix(y[1..], x + y)
  {
    assert (x + y)[|x + y| - |y[1..]|..] == y[1..];
  }

  /** A final segment of a final segment is a final segment. */
  lemma SuffixTrans(a: seq<byte>, b: seq<byte>, c: seq<byte>)
    requires IsSuffix(a, b) && IsSuffix(b, c)
    ensures IsSuffix(a, c)
  {
  }

  /**
   * Decoding bytes to a String, one character per byte. For ASCII this is what
   * the UTF-8 decoder of the source produces; every byte the parsers look for
   * is ASCII, and UTF-8 never uses ASCII codes inside a multi-byte character.
   */
  function Latin1(bs: seq<byte>): (r: string)
    ensures |r| == |bs|
    ensures forall i :: 0 <= i < |bs| ==> r[i] as int == bs[i]
  {
    seq(|bs|, i requires 0 <= i < |bs| => bs[i] as char)
  }

  lemma Latin1Injective(a: seq<byte>, b: seq<byte>)
    requires Latin1(a) == Latin1(b)
    ensures a == b
  {
    assert |a| == |b|;
    forall i | 0 <= i < |a| ensures a[i] == b[i] {
      assert Latin1(a)[i] == Latin1(b)[i];
    }
  }

  /** Decoding a slice is slicing the decoded text. */
  lemma Latin1Slice(s: seq<byte>, i: int, j: int)
    requires 0 <= i <= j <= |s|
    ensures Latin1(s[i..j]) == Latin1(s)[i..j]
  {
  }

  /** The bytes of a text whose characters are all below 256 (used for literal inputs). */
  function Ascii(s: string): (r: seq<byte>)
    requires forall i :: 0 <= i < |s| ==> s[i] as int < 256
    ensures |r| == |s|
    ensures Latin1(r) == s
  {
    seq(|s|, i requires 0 <= i < |s| => s[i] as int)
  }

  const TWO_31: int := 0x8000_0000
  const TWO_32: int := 0x1_0000_0000
  const TWO_63: int := 0x8000_0000_0000_0000
  const TWO_64: int := 0x1_0000_0000_0000_0000

  /** A value of Kotlin's `Int`. */
  predicate IsInt32(x: int) { -TWO_31 <= x < TWO_31 }
  /** A value of Kotlin's `Long`. */
  predicate IsInt64(x: int) { -TWO_63 <= x < TWO_63 }

  /** The two's-complement wrap-around of JVM `Int` arithmetic. */
  function Wrap32(x: int): (r: int)
    ensures IsInt32(r)
    ensures (r - x) % TWO_32 == 0
    ensures IsInt32(x) ==> r == x
  {
    (x + TWO_31) % TWO_32 - TWO_31
  }

  /** The two's-complement wrap-around of JVM `Long` arithmetic. */
  function Wrap64(x: int): (r: int)
    ensures IsInt64(r)
    ensures (r - x) % TWO_64 == 0
    ensures IsInt64(x) ==> r == x
  {
    (x + TWO_63) % TWO_64 - TWO_63
  }

  /** The exceptions the parsers let escape. */
  datatype Raised =
    | BufferOverflow   // java.nio.BufferOverflowException: a token longer than the scratch buffer
    | InvalidDateTime  // java.time.DateTimeException: out-of-range timestamp or offset fields

  /** A parser call either returns a boolean or throws. */
  datatype Outcome = Returned(b: bool) | Threw(e: Raised)

  /** A call that either returns a value or throws. */
  datatype Result<T> = Success(value: T) | Failure(e: Raised)

  /** `Byte.toInt()`: the JVM byte is signed. */
  function SignedByte(b: byte): (r: int)
    ensures -128 <= r < 128
    ensures (r - b) % 256 == 0
  {
    if b < 128 then b else b - 256
  }
}
