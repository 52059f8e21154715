/**
 * The Kotlin string functions the Ganglia and HAProxy mappers are built from:
 * `isBlank`, `trim`, `trimStart`, `splitToSequence`, `lastIndexOf`,
 * `substringAfterLast`, `startsWith`, `endsWith`, `removeSuffix`, `replace`
 * and `toLong`, and the exceptions those mappers let escape.
 */
module Strings {
  import opened Bytes
  import Metrics

  /** The exceptions that end an `export` of the Ganglia and HAProxy collectors. */
  datatype Thrown =
    | NumberFormat       // `toLong` on text that is not a 64-bit decimal
    | IllegalArgument    // `Type.valueOf` on an unknown type name
    | IndexOutOfBounds   // a CSV row with more cells than the header
    | IllegalState       // `error(...)`, `IllegalStateException()`
    | NoSuchElement      // `first()` or `last()` of an empty list
    | ClosedChannel      // `receive()` on a channel that ended
    | IoFailure          // an `IOException` from a connection attempt
    | OtherFailure       // any other exception from a connection attempt

  /** `Char.isWhitespace` on the JVM: `Character.isWhitespace` or `Character.isSpaceChar`. */
  predicate IsWhitespace(c: char)
  {
    var n := c as int;
    (9 <= n <= 13) || (0x1C <= n <= 0x20) || n == 0xA0 || n == 0x1680 || (0x2000 <= n <= 0x200A)
    || n == 0x2028 || n == 0x2029 || n == 0x202F || n == 0x205F || n == 0x3000
  }

  /** `isBlank()`: empty or whitespace only. */
  predicate IsBlank(s: string)
  {
    forall i :: 0 <= i < |s| ==> IsWhitespace(s[i])
  }

  /** `trimStart(p)`: drops the longest prefix of characters satisfying `p`. */
  function TrimStart(s: string, p: char -> bool): (r: string)
    ensures |r| <= |s| && r == s[|s| - |r|..]
    ensures r == [] || !p(r[0])
    ensures forall i :: 0 <= i < |s| - |r| ==> p(s[i])
  {
    if s != [] && p(s[0]) then
      var r := TrimStart(s[1..], p);
      assert s[1..][|s| - 1 - |r|..] == s[|s| - |r|..];
      assert forall i :: 1 <= i < |s| - |r| ==> s[1..][i - 1] == s[i];
      r
    else s
  }

  /** `trimEnd(p)`: drops the longest suffix of characters satisfying `p`. */
  function TrimEnd(s: string, p: char -> bool): (r: string)
    ensures |r| <= |s| && r == s[..|r|]
    ensures r == [] || !p(r[|r| - 1])
    ensures forall i :: |r| <= i < |s| ==> p(s[i])
  {
    if s != [] && p(s[|s| - 1]) then
      var r := TrimEnd(s[..|s| - 1], p);
      assert s[..|s| - 1][..|r|] == s[..|r|];
      r
    else s
  }

  /** `trim()`: whitespace removed at both ends. */
  function Trim(s: string): (r: string)
    ensures r == [] || (!IsWhitespace(r[0]) && !IsWhitespace(r[|r| - 1]))
  {
    TrimEnd(TrimStart(s, IsWhitespace), IsWhitespace)
  }

  /** `trim()` keeps the middle untouched: what it removes is blank. */
  lemma TrimMiddle(s: string)
    ensures exists i :: Within(s, Trim(s), i)
  {
    var a := TrimStart(s, IsWhitespace);
    var r := TrimEnd(a, IsWhitespace);
    assert Trim(s) == r;
    BlankHead(s, |s| - |a|);
    BlankTail(a, |r|);
    MiddleWithin(s, a, r);
  }

  lemma MiddleWithin(s: string, a: string, r: string)
    requires |a| <= |s| && a == s[|s| - |a|..] && |r| <= |a| && r == a[..|r|]
    requires IsBlank(s[..|s| - |a|]) && IsBlank(a[|r|..])
    ensures Within(s, r, |s| - |a|)
  {
    var i := |s| - |a|;
    assert s[i..i + |r|] == r;
    assert s[i + |r|..] == a[|r|..];
  }

  lemma BlankHead(s: string, i: int)
    requires 0 <= i <= |s| && forall k :: 0 <= k < i ==> IsWhitespace(s[k])
    ensures IsBlank(s[..i])
  {
    var head := s[..i];
    forall k | 0 <= k < i ensures IsWhitespace(head[k]) {
      assert head[k] == s[k];
    }
  }

  lemma BlankTail(s: string, i: int)
    requires 0 <= i <= |s| && forall k :: i <= k < |s| ==> IsWhitespace(s[k])
    ensures IsBlank(s[i..])
  {
    var tail := s[i..];
    forall k | 0 <= k < |tail| ensures IsWhitespace(tail[k]) {
      assert tail[k] == s[i + k];
    }
  }

  /** `r` is found in `s` at `i` with only blanks around it. */
  predicate Within(s: string, r: string, i: int)
  {
    0 <= i <= |s| - |r| && s[i..i + |r|] == r && IsBlank(s[..i]) && IsBlank(s[i + |r|..])
  }

  /** A blank text trims to nothing, and only a blank one does. */
  lemma TrimBlank(s: string)
    ensures Trim(s) == [] <==> IsBlank(s)
  {
    var a := TrimStart(s, IsWhitespace);
    if a != [] {
      assert TrimEnd(a, IsWhitespace) != [];
    }
  }

  /** `trim()` keeps a middle part: it adds no character. */
  lemma TrimWithin(s: string)
    ensures forall c :: c in Trim(s) ==> c in s
  {
    var a := TrimStart(s, IsWhitespace);
    var r := TrimEnd(a, IsWhitespace);
    assert Trim(s) == r;
    forall k | 0 <= k < |r| ensures r[k] in s {
      assert r[k] == a[k] == s[|s| - |a| + k];
    }
  }

  /** `trim()` is idempotent. */
  lemma TrimTwice(s: string)
    ensures Trim(Trim(s)) == Trim(s)
  {
    var r := Trim(s);
    var a := TrimStart(r, IsWhitespace);
    if r != [] {
      assert a == r;
    }
  }

  /** `split(d)` on one delimiter character: the pieces between the delimiters. */
  function Split(s: string, d: char): (r: seq<string>)
    ensures |r| >= 1
    ensures forall i :: 0 <= i < |r| ==> d !in r[i]
  {
    if s == [] then [""]
    else
      var rest := Split(s[1..], d);
      if s[0] == d then [""] + rest else [[s[0]] + rest[0]] + rest[1..]
  }

  /** `joinToString(d)`: the pieces with the delimiter between them. */
  function Join(parts: seq<string>, d: char): string
    requires |parts| >= 1
  {
    if |parts| == 1 then parts[0] else parts[0] + [d] + Join(parts[1..], d)
  }

  /** Joining the pieces gives back the text. */
  lemma {:induction false} SplitJoin(s: string, d: char)
    ensures Join(Split(s, d), d) == s
  {
    if s != [] {
      var rest := Split(s[1..], d);
      SplitJoin(s[1..], d);
      if s[0] == d {
        assert ([""] + rest)[1..] == rest;
        assert s == [d] + s[1..];
      } else {
        var r := [[s[0]] + rest[0]] + rest[1..];
        if |rest| == 1 {
          assert s == [s[0]] + s[1..];
        } else {
          assert r[1..] == rest[1..];
          assert s == [s[0]] + s[1..];
        }
      }
    }
  }

  /** Splitting a join of delimiter-free pieces gives back the pieces. */
  lemma {:induction false} JoinSplit(parts: seq<string>, d: char)
    requires |parts| >= 1 && forall i :: 0 <= i < |parts| ==> d !in parts[i]
    ensures Split(Join(parts, d), d) == parts
    decreases |parts|, |parts[0]|
  {
    var s := Join(parts, d);
    if parts[0] != [] {
      var p := parts[0];
      var tail := [p[1..]] + parts[1..];
      assert tail[0] == p[1..] && tail[1..] == parts[1..];
      assert d !in p[1..] by {
        assert forall c :: c in p[1..] ==> c in p;
      }
      assert s[0] == p[0] != d;
      assert s[1..] == Join(tail, d);
      JoinSplit(tail, d);
      assert Split(s, d) == [[p[0]] + p[1..]] + parts[1..];
      assert p == [p[0]] + p[1..];
      assert [p] + parts[1..] == parts;
    } else if |parts| > 1 {
      assert s[0] == d && s[1..] == Join(parts[1..], d);
      JoinSplit(parts[1..], d);
      assert Split(s, d) == [""] + parts[1..];
      assert [parts[0]] + parts[1..] == parts;
    }
  }

  /** `p` occurs in `s` at index `i`. */
  predicate At(s: string, p: string, i: int)
  {
    0 <= i && i + |p| <= |s| && s[i..i + |p|] == p
  }

  /** The largest `j <= i` at which `p` occurs, or -1. */
  function FindDown(s: string, p: string, i: int): (r: int)
    requires i <= |s| - |p|
    ensures r == -1 || (r <= i && At(s, p, r))
    ensures forall j :: r < j <= i ==> !At(s, p, j)
    decreases i + 1
  {
    if i < 0 then -1 else if s[i..i + |p|] == p then i else FindDown(s, p, i - 1)
  }

  /** `lastIndexOf(p)`: the last occurrence of `p`, or -1. */
  function LastIndexOf(s: string, p: string): (r: int)
    ensures r == -1 || At(s, p, r)
    ensures forall j :: r < j ==> !At(s, p, j)
  {
    FindDown(s, p, |s| - |p|)
  }

  /** `substringAfterLast(d)`: the text after the last `d`, or all of it. */
  function SubstringAfterLast(s: string, d: string): (r: string)
    requires d != []
    ensures |r| <= |s| && r == s[|s| - |r|..]
    ensures forall j :: !At(r, d, j)
    ensures r == s <==> forall j :: !At(s, d, j)
  {
    var i := LastIndexOf(s, d);
    if i < 0 then s
    else
      var r := s[i + |d|..];
      forall j | At(r, d, j) ensures false {
        assert s[i + |d| + j..i + |d| + j + |d|] == r[j..j + |d|];
        assert At(s, d, i + |d| + j);
      }
      r
  }

  predicate StartsWith(s: string, p: string)
  {
    |p| <= |s| && s[..|p|] == p
  }

  predicate EndsWith(s: string, p: string)
  {
    |p| <= |s| && s[|s| - |p|..] == p
  }

  /** `removeSuffix(x)`: `s` without a trailing `x`, or `s` when it has none. */
  function RemoveSuffix(s: string, x: string): (r: string)
    ensures EndsWith(s, x) ==> r + x == s
    ensures !EndsWith(s, x) ==> r == s
  {
    if EndsWith(s, x) then s[..|s| - |x|] else s
  }

  /** `replace(a, b)` on characters. */
  function Replace(s: string, a: char, b: char): (r: string)
    ensures |r| == |s|
    ensures a != b ==> a !in r
  {
    seq(|s|, i requires 0 <= i < |s| => if s[i] == a then b else s[i])
  }

  lemma ReplaceAppend(x: string, y: string, a: char, b: char)
    ensures Replace(x + y, a, b) == Replace(x, a, b) + Replace(y, a, b)
  {
  }

  predicate AllDigits(s: string)
  {
    forall i :: 0 <= i < |s| ==> '0' <= s[i] <= '9'
  }

  /**
   * `toLong()` (`java.lang.Long.parseLong`): an optional sign, one or more
   * decimal digits, and a value that fits 64 bits; anything else throws
   * `NumberFormatException`.
   */
  function ParseLong(s: string): (r: Option<int>)
    ensures r.Some? ==> IsInt64(r.value)
    ensures r.Some? ==> s != [] && s != "-" && s != "+"
  {
    if s == [] then None
    else
      var digits := if s[0] == '-' || s[0] == '+' then s[1..] else s;
      var n := if s[0] == '-' then -Metrics.ReadNat(digits) else Metrics.ReadNat(digits);
      if digits == [] || !AllDigits(digits) || !IsInt64(n) then None else Some(n)
  }

  /** The text of every 64-bit value parses back to it. */
  lemma LongTextParses(n: int)
    requires IsInt64(n)
    ensures ParseLong(Metrics.IntText(n)) == Some(n)
  {
    if n < 0 {
      Metrics.NatTextReadsBack(-n);
      ParseNegative(Metrics.NatText(-n));
    } else {
      Metrics.NatTextReadsBack(n);
      ParseNonNegative(Metrics.NatText(n));
    }
  }

  lemma ParseNonNegative(d: string)
    requires d != [] && AllDigits(d) && IsInt64(Metrics.ReadNat(d))
    ensures ParseLong(d) == Some(Metrics.ReadNat(d))
  {
    assert d[0] != '-' && d[0] != '+';
  }

  lemma ParseNegative(d: string)
    requires d != [] && AllDigits(d) && IsInt64(-Metrics.ReadNat(d))
    ensures ParseLong("-" + d) == Some(-Metrics.ReadNat(d))
  {
    assert ("-" + d)[1..] == d;
  }

  /** Values beyond 64 bits are refused. */
  lemma LongOverflowRefused(n: nat)
    requires n >= TWO_63
    ensures ParseLong(Metrics.NatText(n)) == None
  {
    Metrics.NatTextReadsBack(n);
  }
}
