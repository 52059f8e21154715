/**
 * Structured-data parameter values: the backslash escapes of a quoted
 * PARAM-VALUE (section 6.3.3 of RFC 5424) and `decodeQuotedString`, which
 * undoes them. The three Progressive2 parsers carry identical copies of
 * `decodeQuotedString`; it is modelled once here.
 */
module SdValue {
  import Bytes

  /** The characters RFC 5424 requires to be escaped inside a PARAM-VALUE. */
  predicate MustEscape(c: char) { c == '\\' || c == '"' || c == ']' }

  /**
   * The text `decodeQuotedString` appends for `s`: a backslash followed by an
   * escapable character stands for that character, a backslash followed by
   * anything else is kept with that character, and a backslash at the very
   * end appends nothing (the parser then reports the segment as unpaired).
   */
  function Unescape(s: string): string
  {
    if s == [] then []
    else if s[0] == '\\' then
      if |s| == 1 then []
      else (if MustEscape(s[1]) then [s[1]] else ['\\', s[1]]) + Unescape(s[2..])
    else [s[0]] + Unescape(s[1..])
  }

  /** The segment ends inside an escape: its last backslash starts a pair it cannot complete. */
  predicate Unpaired(s: string)
  {
    if s == [] then false
    else if s[0] == '\\' then |s| == 1 || Unpaired(s[2..])
    else Unpaired(s[1..])
  }

  /** The escaping a sender applies to a PARAM-VALUE. */
  function Escape(s: string): (r: string)
    ensures |s| <= |r| <= 2 * |s|
  {
    if s == [] then []
    else (if MustEscape(s[0]) then ['\\', s[0]] else [s[0]]) + Escape(s[1..])
  }

  /** Decoding can be done segment by segment, as long as no segment ends in an open escape. */
  lemma {:induction false} UnescapeAppend(p: string, q: string)
    requires !Unpaired(p)
    ensures Unescape(p + q) == Unescape(p) + Unescape(q)
    ensures Unpaired(p + q) == Unpaired(q)
    decreases |p|, 1
  {
    if p == [] {
      assert p + q == q;
    } else if p[0] == '\\' {
      UnescapeAppendPair(p, q);
    } else {
      UnescapeAppendChar(p, q);
    }
  }

  lemma {:induction false} UnescapeAppendPair(p: string, q: string)
    requires p != [] && p[0] == '\\' && !Unpaired(p)
    ensures Unescape(p + q) == Unescape(p) + Unescape(q)
    ensures Unpaired(p + q) == Unpaired(q)
    decreases |p|, 0
  {
    var h := PairText(p[1]);
    UnescapePairHead(p);
    assert (p + q)[0] == '\\' && (p + q)[1] == p[1] && (p + q)[2..] == p[2..] + q;
    UnescapePairHead(p + q);
    UnescapeAppend(p[2..], q);
    Bytes.AppendAssoc(h, Unescape(p[2..]), Unescape(q));
  }

  lemma {:induction false} UnescapeAppendChar(p: string, q: string)
    requires p != [] && p[0] != '\\' && !Unpaired(p)
    ensures Unescape(p + q) == Unescape(p) + Unescape(q)
    ensures Unpaired(p + q) == Unpaired(q)
    decreases |p|, 0
  {
    UnescapeCharHead(p);
    assert (p + q)[0] == p[0] && (p + q)[1..] == p[1..] + q;
    UnescapeCharHead(p + q);
    UnescapeAppend(p[1..], q);
    Bytes.AppendAssoc([p[0]], Unescape(p[1..]), Unescape(q));
  }

  /** What an escape pair `\c` decodes to. */
  function PairText(c: char): string
  {
    if MustEscape(c) then [c] else ['\\', c]
  }

  lemma UnescapePairHead(s: string)
    requires |s| >= 2 && s[0] == '\\'
    ensures Unescape(s) == PairText(s[1]) + Unescape(s[2..])
    ensures Unpaired(s) == Unpaired(s[2..])
  {
  }

  lemma UnescapeCharHead(s: string)
    requires s != [] && s[0] != '\\'
    ensures Unescape(s) == [s[0]] + Unescape(s[1..])
    ensures Unpaired(s) == Unpaired(s[1..])
  {
  }

  /** Decoding undoes escaping, and an escaped value never ends in an open escape. */
  lemma {:induction false} UnescapeEscape(s: string)
    ensures Unescape(Escape(s)) == s
    ensures !Unpaired(Escape(s))
  {
    if s != [] {
      var head: string := if MustEscape(s[0]) then ['\\', s[0]] else [s[0]];
      assert Escape(s) == head + Escape(s[1..]);
      assert Unescape(head) == [s[0]] && !Unpaired(head) by {
        if MustEscape(s[0]) {
          assert head[2..] == [];
          assert !Unpaired(head[2..]);
        } else {
          assert head[1..] == [];
          assert !Unpaired(head[1..]);
        }
      }
      UnescapeAppend(head, Escape(s[1..]));
      UnescapeEscape(s[1..]);
    }
  }

  /** Text without backslashes decodes to itself. */
  lemma {:induction false} UnescapePlain(s: string)
    requires forall i :: 0 <= i < |s| ==> s[i] != '\\'
    ensures Unescape(s) == s
    ensures !Unpaired(s)
  {
    if s != [] {
      UnescapePlain(s[1..]);
    }
  }

  /** An escape of a character outside the escapable three is kept verbatim, backslash included. */
  lemma UnescapeKeepsOtherEscapes(c: char)
    requires !MustEscape(c)
    ensures Unescape(['\\', c]) == ['\\', c]
  {
    assert ['\\', c][2..] == [];
  }

  /**
   * `decodeQuotedString(sb, input)`: appends the decoded text of `input` to
   * `sb` and answers whether `input` did not end inside an escape.
   */
  method DecodeQuotedString(sb: string, input: string) returns (out: string, paired: bool)
    ensures out == sb + Unescape(input)
    ensures paired == !Unpaired(input)
  {
    out := sb;
    var st := 0;
    var i := 0;
    while i < |input|
      invariant 0 <= i <= |input|
      invariant st == 0 || st == 1
      invariant st == 0 ==> !Unpaired(input[..i]) && out == sb + Unescape(input[..i])
      invariant st == 1 ==> 0 < i && input[i - 1] == '\\' && !Unpaired(input[..i - 1])
                            && out == sb + Unescape(input[..i - 1])
    {
      var c := input[i];
      if st == 1 {
        var pair := ['\\', c];
        assert input[..i + 1] == input[..i - 1] + pair;
        assert pair[2..] == [];
        UnescapeAppend(input[..i - 1], pair);
        if c != '\\' && c != '"' && c != ']' {
          out := out + ['\\'];
        }
        out := out + [c];
        st := 0;
      } else if c == '\\' {
        st := 1;
      } else {
        assert input[..i + 1] == input[..i] + [c];
        UnescapeAppend(input[..i], [c]);
        out := out + [c];
      }
      i := i + 1;
    }
    assert input[..i] == input;
    if st == 1 {
      assert input == input[..i - 1] + ['\\'];
      UnescapeAppend(input[..i - 1], ['\\']);
    }
    paired := st == 0;
  }
}
