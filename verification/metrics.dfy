/**
 * The metric data model the collectors hand to a `MetricWriter`: the four
 * metric types, a sample value, and its rendering as text.
 */
module Metrics {
  import opened Bytes

  /** `MetricType`, in declaration order. */
  datatype MetricType = Counter | Gauge | Summary | Histogram

  /** `ordinal`: the position in the declaration. */
  function Ordinal(t: MetricType): (r: nat)
    ensures r < 4
  {
    match t
    case Counter => 0
    case Gauge => 1
    case Summary => 2
    case Histogram => 3
  }

  /** `type.toString().toLowerCase()`, the word the `# TYPE` line carries. */
  function TypeName(t: MetricType): (r: string)
    ensures r != [] && forall i :: 0 <= i < |r| ==> 'a' <= r[i] <= 'z'
  {
    match t
    case Counter => "counter"
    case Gauge => "gauge"
    case Summary => "summary"
    case Histogram => "histogram"
  }

  /** Distinct types have distinct ordinals and distinct names. */
  lemma TypesDistinct(a: MetricType, b: MetricType)
    requires a != b
    ensures Ordinal(a) != Ordinal(b) && TypeName(a) != TypeName(b)
  {
  }

  /**
   * A Kotlin `Number`: the collectors produce `Long`s and `Double`s. A
   * `Double` is kept as the text it is written as.
   */
  datatype Number = Long(n: int) | Double(text: string)

  function DigitChar(d: nat): (c: char)
    requires d < 10
    ensures '0' <= c <= '9'
  {
    ('0' as int + d) as char
  }

  /** The decimal digits of a non-negative number, most significant first. */
  function NatText(n: nat): (r: string)
    ensures r != [] && forall i :: 0 <= i < |r| ==> '0' <= r[i] <= '9'
    decreases n
  {
    if n < 10 then [DigitChar(n)] else NatText(n / 10) + [DigitChar(n % 10)]
  }

  /** `Long.toString()`. */
  function IntText(n: int): (r: string)
    ensures r != [] && ' ' !in r && '\n' !in r
  {
    if n < 0 then "-" + NatText(-n) else NatText(n)
  }

  /** Reading decimal digits back. */
  function ReadNat(s: string): int
  {
    if s == [] then 0 else ReadNat(s[..|s| - 1]) * 10 + (s[|s| - 1] as int - '0' as int)
  }

  /** Reading an optionally signed decimal back. */
  function ReadInt(s: string): int
  {
    if s != [] && s[0] == '-' then -ReadNat(s[1..]) else ReadNat(s)
  }

  lemma {:induction false} NatTextReadsBack(n: nat)
    ensures ReadNat(NatText(n)) == n
    decreases n
  {
    if n >= 10 {
      var s := NatText(n);
      assert s[..|s| - 1] == NatText(n / 10);
      NatTextReadsBack(n / 10);
    }
  }

  /** The text of a `Long` reads back as that `Long`. */
  lemma IntTextReadsBack(n: int)
    ensures ReadInt(IntText(n)) == n
  {
    if n < 0 {
      assert IntText(n)[1..] == NatText(-n);
      NatTextReadsBack(-n);
    } else {
      NatTextReadsBack(n);
    }
  }

  /** `Number.toString()`: the decimal of a `Long`, the text of a `Double`. */
  function NumberText(x: Number): string
  {
    match x
    case Long(n) => IntText(n)
    case Double(t) => t
  }

  /** `MetricValue`: fields are (label name, label value) pairs in call order. */
  datatype MetricValue = MetricValue(name: string, value: Number, metricType: MetricType,
                                     description: Option<string>, ts: Option<int>,
                                     fields: seq<(string, string)>)
}
