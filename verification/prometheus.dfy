/**
 * The Prometheus text exposition format (version 0.0.4) encoder: name
 * checks, escaping, the text of one sample, and the writer that puts the
 * `# TYPE`/`# HELP` header in front of the first sample of each name.
 */
module Prometheus {
  import opened Bytes
  import opened Metrics

  predicate IsLower(c: char) { 'a' <= c <= 'z' }
  predicate IsUpper(c: char) { 'A' <= c <= 'Z' }
  predicate IsDecimal(c: char) { '0' <= c <= '9' }

  // ---------------------------------------------------------------------------------------------
  // checkPrometheusMetricName / checkPrometheusLabelName

  /** The `when` of `checkPrometheusMetricName` at `index`; `x` is matched before `a..z`. */
  predicate MetricCharValid(name: string, index: int)
    requires 0 <= index < |name|
  {
    var c := name[index];
    if c == 'x' then index == 0 || name[index - 1] != ':'
    else IsLower(c) || c == '_' || (IsDecimal(c) && index != 0) || IsUpper(c) || c == ':'
  }

  predicate ValidMetricName(name: string)
  {
    name != [] && forall i :: 0 <= i < |name| ==> MetricCharValid(name, i)
  }

  /** `checkPrometheusMetricName`. */
  method CheckMetricName(name: string) returns (ok: bool)
    ensures ok == ValidMetricName(name)
  {
    if |name| == 0 {
      return false;
    }
    var index := 0;
    while index < |name|
      invariant 0 <= index <= |name|
      invariant forall i :: 0 <= i < index ==> MetricCharValid(name, i)
    {
      var c := name[index];
      var valid :=
        if c == 'x' then index == 0 || name[index - 1] != ':'
        else if 'a' <= c <= 'z' then true
        else if c == '_' then true
        else if '0' <= c <= '9' then index != 0
        else if 'A' <= c <= 'Z' then true
        else c == ':';
      assert valid == MetricCharValid(name, index);
      if !valid {
        return false;
      }
      index := index + 1;
    }
    return true;
  }

  /** The metric-name pattern of the exposition format, `[a-zA-Z_:][a-zA-Z0-9_:]*`. */
  predicate MetricNameStart(c: char) { IsLower(c) || IsUpper(c) || c == '_' || c == ':' }

  predicate MatchesMetricNamePattern(name: string)
  {
    && name != [] && MetricNameStart(name[0])
    && forall i :: 0 < i < |name| ==> MetricNameStart(name[i]) || IsDecimal(name[i])
  }

  /**
   * The accepted names are those of the exposition format's pattern that have
   * no `x` right after a `:` (so `job:xfs_bytes` is refused).
   */
  lemma MetricNameAccepted(name: string)
    ensures ValidMetricName(name) <==>
              MatchesMetricNamePattern(name) && forall i :: 0 < i < |name| ==> !(name[i - 1] == ':' && name[i] == 'x')
  {
    if ValidMetricName(name) {
      assert MetricCharValid(name, 0);
      forall i | 0 < i < |name|
        ensures MetricNameStart(name[i]) || IsDecimal(name[i])
        ensures !(name[i - 1] == ':' && name[i] == 'x')
      {
        assert MetricCharValid(name, i);
      }
    }
  }

  /** A concrete consequence: a recording-rule name whose part after `:` starts with `x`. */
  lemma ColonXRefused()
    ensures MatchesMetricNamePattern("job:xfs") && !ValidMetricName("job:xfs")
  {
    assert !MetricCharValid("job:xfs", 4);
  }

  /** The `when` of `checkPrometheusLabelName` at `index`. */
  predicate LabelCharValid(name: string, index: int)
    requires 0 <= index < |name|
  {
    var c := name[index];
    if IsLower(c) then true
    else if c == '_' then index != 1 || name[0] != '_'
    else if IsUpper(c) then true
    else IsDecimal(c) && index != 0
  }

  predicate ValidLabelName(name: string)
  {
    name != [] && forall i :: 0 <= i < |name| ==> LabelCharValid(name, i)
  }

  /** `checkPrometheusLabelName`. */
  method CheckLabelName(name: string) returns (ok: bool)
    ensures ok == ValidLabelName(name)
  {
    if |name| == 0 {
      return false;
    }
    var index := 0;
    while index < |name|
      invariant 0 <= index <= |name|
      invariant forall i :: 0 <= i < index ==> LabelCharValid(name, i)
    {
      var c := name[index];
      var valid :=
        if 'a' <= c <= 'z' then true
        else if c == '_' then index != 1 || name[0] != '_'
        else if 'A' <= c <= 'Z' then true
        else '0' <= c <= '9' && index != 0;
      assert valid == LabelCharValid(name, index);
      if !valid {
        return false;
      }
      index := index + 1;
    }
    return true;
  }

  /** The label-name pattern of the exposition format, `[a-zA-Z_][a-zA-Z0-9_]*`. */
  predicate LabelNameStart(c: char) { IsLower(c) || IsUpper(c) || c == '_' }

  predicate MatchesLabelNamePattern(name: string)
  {
    && name != [] && LabelNameStart(name[0])
    && forall i :: 0 < i < |name| ==> LabelNameStart(name[i]) || IsDecimal(name[i])
  }

  /**
   * The accepted label names are those of the pattern that do not start with
   * the reserved `__`; a `__` further on is accepted.
   */
  lemma LabelNameAccepted(name: string)
    ensures ValidLabelName(name) <==>
              MatchesLabelNamePattern(name) && !(|name| >= 2 && name[0] == '_' && name[1] == '_')
  {
    if ValidLabelName(name) {
      assert LabelCharValid(name, 0);
      if |name| >= 2 {
        assert LabelCharValid(name, 1);
      }
      forall i | 0 < i < |name|
        ensures LabelNameStart(name[i]) || IsDecimal(name[i])
      {
        assert LabelCharValid(name, i);
      }
    }
  }

  /** A valid name (metric or label) has no character that could end a line or a label set. */
  lemma ValidNamesPlain(name: string)
    requires ValidMetricName(name) || ValidLabelName(name)
    ensures '\n' !in name && ' ' !in name && '=' !in name && '"' !in name && '{' !in name
  {
    forall i | 0 <= i < |name|
      ensures name[i] != '\n' && name[i] != ' ' && name[i] != '=' && name[i] != '"' && name[i] != '{'
    {
      if ValidMetricName(name) {
        assert MetricCharValid(name, i);
      } else {
        assert LabelCharValid(name, i);
      }
    }
  }

  // ---------------------------------------------------------------------------------------------
  // Escaping

  /**
   * The text written for one character: a backslash and a newline are always
   * escaped; a double quote only inside a label value (`quote`).
   */
  function EscapeChar(c: char, quote: bool): string
  {
    if quote && c == '"' then "\\\""
    else if c == '\\' then "\\\\"
    else if c == '\n' then "\\n"
    else [c]
  }

  function Escaped(s: string, quote: bool): string
  {
    if s == [] then "" else EscapeChar(s[0], quote) + Escaped(s[1..], quote)
  }

  lemma {:induction false} EscapedAppend(s: string, t: string, quote: bool)
    ensures Escaped(s + t, quote) == Escaped(s, quote) + Escaped(t, quote)
  {
    if s != [] {
      assert (s + t)[1..] == s[1..] + t;
      EscapedAppend(s[1..], t, quote);
    } else {
      assert s + t == t;
    }
  }

  lemma {:induction false} EscapedNotShorter(s: string, quote: bool)
    ensures |Escaped(s, quote)| >= |s|
  {
    if s != [] {
      EscapedNotShorter(s[1..], quote);
    }
  }

  /** Reading an escaped text back: `\n` is a newline, a backslash keeps the next character. */
  function Unescape(t: string): string
  {
    if t == [] then ""
    else if t[0] == '\\' && |t| >= 2 then [if t[1] == 'n' then '\n' else t[1]] + Unescape(t[2..])
    else [t[0]] + Unescape(t[1..])
  }

  /** Escaping loses nothing. */
  lemma {:induction false} EscapedReadsBack(s: string, quote: bool)
    ensures Unescape(Escaped(s, quote)) == s
  {
    if s != [] {
      var e := EscapeChar(s[0], quote);
      var rest := Escaped(s[1..], quote);
      EscapedReadsBack(s[1..], quote);
      assert (e + rest)[|e|..] == rest;
      assert s == [s[0]] + s[1..];
    }
  }

  /** An escaped text stays on one line. */
  lemma {:induction false} EscapedOneLine(s: string, quote: bool)
    ensures '\n' !in Escaped(s, quote)
  {
    if s != [] {
      EscapedOneLine(s[1..], quote);
    }
  }

  /** In a label value every `"` is escaped, so a bare `"` ends the value. */
  lemma {:induction false} LabelValueQuotesEscaped(s: string)
    ensures forall i :: 0 <= i < |Escaped(s, true)| && Escaped(s, true)[i] == '"' ==>
              0 < i && Escaped(s, true)[i - 1] == '\\'
  {
    if s != [] {
      LabelValueQuotesEscaped(s[1..]);
      var e := EscapeChar(s[0], true);
      var rest := Escaped(s[1..], true);
      forall i | 0 <= i < |e + rest| && (e + rest)[i] == '"'
        ensures 0 < i && (e + rest)[i - 1] == '\\'
      {
        if i >= |e| {
          assert (e + rest)[i] == rest[i - |e|];
          if i - |e| == 0 {
            assert false;
          }
          assert (e + rest)[i - 1] == rest[i - |e| - 1];
        }
      }
    }
  }

  /** `# HELP` text keeps double quotes as they are. */
  lemma HelpKeepsQuotes()
    ensures Escaped("a\"b", false) == "a\"b" && Escaped("a\"b", true) == "a\\\"b"
  {
  }

  // ---------------------------------------------------------------------------------------------
  // writeAsPrometheusText

  /** `name="value"` with the value escaped. */
  function LabelPair(p: (string, string)): string
  {
    p.0 + "=\"" + Escaped(p.1, true) + "\""
  }

  /**
   * What the loop writes for `p`: nothing when its name fails the label
   * check; otherwise the pair, then a comma unless `p` equals `last`, the last
   * element of the whole list.
   */
  function PairText(p: (string, string), last: (string, string)): string
  {
    if !ValidLabelName(p.0) then "" else LabelPair(p) + if p != last then "," else ""
  }

  /** The labels of `fields`, pair after pair. */
  function Labels(fields: seq<(string, string)>, last: (string, string)): string
  {
    if fields == [] then "" else Labels(fields[..|fields| - 1], last) + PairText(fields[|fields| - 1], last)
  }

  /** The label set: braces for any non-empty field list. */
  function LabelBlock(fields: seq<(string, string)>): string
  {
    if fields == [] then "" else "{" + Labels(fields, fields[|fields| - 1]) + "}"
  }

  /** The `# TYPE` line and, with a description, the `# HELP` line. */
  function Header(v: MetricValue): string
  {
    "# TYPE " + v.name + " " + TypeName(v.metricType) + "\n"
    + match v.description
      case None => ""
      case Some(d) => "# HELP " + v.name + " " + Escaped(d, false) + "\n"
  }

  /** The sample line. */
  function Sample(v: MetricValue): string
  {
    v.name + LabelBlock(v.fields) + " " + NumberText(v.value) + Stamp(v.ts) + "\n"
  }

  /** ` <ts>` when there is a timestamp. */
  function Stamp(ts: Option<int>): string
  {
    match ts
    case None => ""
    case Some(t) => " " + IntText(t)
  }

  /** Everything `writeAsPrometheusText` writes. */
  function Text(v: MetricValue, withHeader: bool): string
  {
    (if withHeader then Header(v) else "") + Sample(v)
  }

  /** The HELP loop. */
  method WriteHelp(out: string, description: string) returns (res: string)
    ensures res == out + Escaped(description, false)
  {
    res := out;
    for i := 0 to |description|
      invariant res == out + Escaped(description[..i], false)
    {
      var c := description[i];
      if c == '\\' {
        res := res + "\\\\";
      } else if c == '\n' {
        res := res + "\\n";
      } else {
        res := res + [c];
      }
      assert description[..i + 1] == description[..i] + [c];
      EscapedAppend(description[..i], [c], false);
    }
    assert description[..|description|] == description;
  }

  /** The label-value loop. */
  method WriteLabelValue(out: string, value: string) returns (res: string)
    ensures res == out + Escaped(value, true)
  {
    res := out;
    for i := 0 to |value|
      invariant res == out + Escaped(value[..i], true)
    {
      var c := value[i];
      if c == '"' {
        res := res + "\\\"";
      } else if c == '\\' {
        res := res + "\\\\";
      } else if c == '\n' {
        res := res + "\\n";
      } else {
        res := res + [c];
      }
      assert value[..i + 1] == value[..i] + [c];
      EscapedAppend(value[..i], [c], true);
    }
    assert value[..|value|] == value;
  }

  /** One turn of the `for (pair in fields)` loop. */
  method WritePair(out: string, pair: (string, string), last: (string, string)) returns (res: string)
    ensures res == out + PairText(pair, last)
  {
    var ok := CheckLabelName(pair.0);
    if !ok {
      return out;
    }
    res := out + pair.0 + "=\"";
    res := WriteLabelValue(res, pair.1);
    res := res + "\"";
    if pair != last {
      res := res + ",";
    }
  }

  /** The `for (pair in fields)` loop, between the braces. */
  method WriteLabels(out: string, fields: seq<(string, string)>) returns (res: string)
    requires fields != []
    ensures res == out + Labels(fields, fields[|fields| - 1])
  {
    var last := fields[|fields| - 1];
    res := out;
    for k := 0 to |fields|
      invariant res == out + Labels(fields[..k], last)
    {
      assert fields[..k + 1][..k] == fields[..k];
      res := WritePair(res, fields[k], last);
    }
    assert fields[..|fields|] == fields;
  }

  /** The `# TYPE` and `# HELP` lines. */
  method WriteHeader(v: MetricValue) returns (out: string)
    ensures out == Header(v)
  {
    out := "# TYPE " + v.name + " " + TypeName(v.metricType) + "\n";
    if v.description.Some? {
      out := out + "# HELP " + v.name + " ";
      out := WriteHelp(out, v.description.value);
      out := out + "\n";
    }
  }

  /** The sample line after the header. */
  method WriteSample(out: string, v: MetricValue) returns (res: string)
    ensures res == out + Sample(v)
  {
    var labels := "";
    if |v.fields| != 0 {
      labels := WriteLabels("{", v.fields);
      labels := labels + "}";
    }
    var stamp := "";
    if v.ts.Some? {
      stamp := " " + IntText(v.ts.value);
    }
    res := out + (v.name + labels + " " + NumberText(v.value) + stamp + "\n");
  }

  /** `writeAsPrometheusText`: the text written to the buffered writer. */
  method WriteAsPrometheusText(v: MetricValue, withHeader: bool) returns (out: string)
    ensures out == Text(v, withHeader)
  {
    out := "";
    if withHeader {
      out := WriteHeader(v);
    }
    out := WriteSample(out, v);
  }

  /** Without an invalid field, every pair is written, each but the last followed by a comma. */
  lemma {:induction false} LabelsAllWritten(fields: seq<(string, string)>, last: (string, string))
    requires forall i :: 0 <= i < |fields| ==> ValidLabelName(fields[i].0) && fields[i] != last
    ensures Labels(fields, last) == JoinedPairs(fields, ",")
  {
    if fields != [] {
      LabelsAllWritten(fields[..|fields| - 1], last);
    }
  }

  /** Each pair's text followed by `sep`. */
  function JoinedPairs(fields: seq<(string, string)>, sep: string): string
  {
    if fields == [] then "" else JoinedPairs(fields[..|fields| - 1], sep) + LabelPair(fields[|fields| - 1]) + sep
  }

  /** Any non-empty field list gets braces, even when every pair is skipped. */
  lemma {:induction false} SkippedFieldsKeepBraces(fields: seq<(string, string)>)
    requires fields != [] && forall i :: 0 <= i < |fields| ==> !ValidLabelName(fields[i].0)
    ensures LabelBlock(fields) == "{}"
  {
    NoValidNoText(fields, fields[|fields| - 1]);
  }

  lemma {:induction false} NoValidNoText(fields: seq<(string, string)>, last: (string, string))
    requires forall i :: 0 <= i < |fields| ==> !ValidLabelName(fields[i].0)
    ensures Labels(fields, last) == ""
  {
    if fields != [] {
      NoValidNoText(fields[..|fields| - 1], last);
    }
  }

  /** A skipped last pair leaves the comma of the written pair before it: `{a="1",}`. */
  lemma SkippedLastLeavesComma(pre: seq<(string, string)>, q: (string, string), last: (string, string))
    requires ValidLabelName(q.0) && !ValidLabelName(last.0)
    ensures Labels(pre + [q, last], last) == Labels(pre, last) + LabelPair(q) + ","
  {
    var f := pre + [q, last];
    assert f[..|f| - 1] == pre + [q];
    assert (pre + [q])[..|pre|] == pre;
  }

  /** Every line of a sample ends where the format expects: one line, ending in a newline. */
  lemma SampleIsOneLine(v: MetricValue)
    requires ValidMetricName(v.name)
    requires v.value.Double? ==> '\n' !in v.value.text
    ensures var s := Sample(v); s != [] && s[|s| - 1] == '\n' && '\n' !in s[..|s| - 1]
  {
    ValidNamesPlain(v.name);
    var body := v.name + LabelBlock(v.fields) + " " + NumberText(v.value) + Stamp(v.ts);
    LabelBlockOneLine(v.fields);
    assert Sample(v) == body + "\n";
    assert Sample(v)[..|Sample(v)| - 1] == body;
  }

  lemma LabelBlockOneLine(fields: seq<(string, string)>)
    ensures '\n' !in LabelBlock(fields)
  {
    if fields != [] {
      LabelsOneLine(fields, fields[|fields| - 1]);
    }
  }

  lemma {:induction false} LabelsOneLine(fields: seq<(string, string)>, last: (string, string))
    ensures '\n' !in Labels(fields, last)
  {
    if fields != [] {
      var p := fields[|fields| - 1];
      LabelsOneLine(fields[..|fields| - 1], last);
      if ValidLabelName(p.0) {
        ValidNamesPlain(p.0);
        EscapedOneLine(p.1, true);
      }
    }
  }

  // ---------------------------------------------------------------------------------------------
  // The comma after a pair equal to the last one

  /**
   * A written pair equal to the last one gets no comma, wherever it stands:
   * the text of the pair runs straight into the next one.
   */
  lemma DuplicateOfLastLosesComma(pre: seq<(string, string)>, p: (string, string), mid: seq<(string, string)>)
    requires ValidLabelName(p.0)
    ensures Labels(pre + [p] + mid + [p], p) == Labels(pre, p) + LabelPair(p) + Labels(mid, p) + LabelPair(p)
  {
    var f := pre + [p] + mid + [p];
    assert f[..|f| - 1] == (pre + [p]) + mid;
    LabelsAppend(pre + [p], mid, p);
    assert (pre + [p])[..|pre|] == pre;
  }

  lemma {:induction false} LabelsAppend(a: seq<(string, string)>, b: seq<(string, string)>, last: (string, string))
    ensures Labels(a + b, last) == Labels(a, last) + Labels(b, last)
    decreases |b|
  {
    if b == [] {
      assert a + b == a;
    } else {
      assert (a + b)[..|a + b| - 1] == a + b[..|b| - 1];
      LabelsAppend(a, b[..|b| - 1], last);
    }
  }

  /** The texts of the pairs whose names pass the label check, in order. */
  function ValidPairs(fields: seq<(string, string)>): seq<string>
  {
    if fields == [] then []
    else
      var p := fields[|fields| - 1];
      ValidPairs(fields[..|fields| - 1]) + if ValidLabelName(p.0) then [LabelPair(p)] else []
  }

  /** Texts separated by commas. */
  function Join(xs: seq<string>): string
  {
    if xs == [] then "" else if |xs| == 1 then xs[0] else Join(xs[..|xs| - 1]) + "," + xs[|xs| - 1]
  }

  lemma {:induction false} JoinOfValid(fields: seq<(string, string)>, y: string)
    requires forall i :: 0 <= i < |fields| ==> ValidLabelName(fields[i].0)
    ensures Join(ValidPairs(fields) + [y]) == JoinedPairs(fields, ",") + y
  {
    if fields == [] {
      assert ValidPairs(fields) + [y] == [y];
    } else {
      var pre := fields[..|fields| - 1];
      var p := fields[|fields| - 1];
      JoinOfValid(pre, LabelPair(p));
      var xs := ValidPairs(fields) + [y];
      assert xs[..|xs| - 1] == ValidPairs(pre) + [LabelPair(p)];
    }
  }

  /**
   * Where every name is valid and no earlier pair equals the last one, the
   * loop writes the valid pairs separated by commas.
   */
  lemma LabelsAgreeWithJoin(fields: seq<(string, string)>)
    requires fields != [] && forall i :: 0 <= i < |fields| ==> ValidLabelName(fields[i].0)
    requires forall i :: 0 <= i < |fields| - 1 ==> fields[i] != fields[|fields| - 1]
    ensures Labels(fields, fields[|fields| - 1]) == Join(ValidPairs(fields))
  {
    var pre := fields[..|fields| - 1];
    var last := fields[|fields| - 1];
    LabelsAllWritten(pre, last);
    JoinOfValid(pre, LabelPair(last));
  }

  /** The corrected loop: a comma before every written pair but the first. */
  method WriteLabelsJoined(out: string, fields: seq<(string, string)>) returns (res: string)
    ensures res == out + Join(ValidPairs(fields))
  {
    res := out;
    var first := true;
    for k := 0 to |fields|
      invariant first <==> ValidPairs(fields[..k]) == []
      invariant res == out + Join(ValidPairs(fields[..k]))
    {
      var pair := fields[k];
      assert fields[..k + 1][..k] == fields[..k];
      var ok := CheckLabelName(pair.0);
      if ok {
        var text := pair.0 + "=\"";
        text := WriteLabelValue(text, pair.1);
        text := text + "\"";
        if !first {
          res := res + ",";
        }
        res := res + text;
        first := false;
        assert text == LabelPair(pair);
        assert ValidPairs(fields[..k + 1]) == ValidPairs(fields[..k]) + [text];
        JoinSnoc(ValidPairs(fields[..k]), text);
      } else {
        assert ValidPairs(fields[..k + 1]) == ValidPairs(fields[..k]);
      }
    }
    assert fields[..|fields|] == fields;
  }

  lemma JoinSnoc(xs: seq<string>, y: string)
    ensures Join(xs + [y]) == if xs == [] then y else Join(xs) + "," + y
  {
    assert (xs + [y])[..|xs|] == xs;
  }

  /** The corrected label set has no comma before its closing brace. */
  lemma JoinedHasNoTrailingComma(fields: seq<(string, string)>)
    requires ValidPairs(fields) != []
    ensures var j := Join(ValidPairs(fields)); j != [] && j[|j| - 1] == '"'
  {
    var xs := ValidPairs(fields);
    assert xs[|xs| - 1] != [] && xs[|xs| - 1][|xs[|xs| - 1]| - 1] == '"' by {
      ValidPairsEndInQuote(fields);
    }
  }

  lemma {:induction false} ValidPairsEndInQuote(fields: seq<(string, string)>)
    ensures forall i :: 0 <= i < |ValidPairs(fields)| ==>
              ValidPairs(fields)[i] != [] && ValidPairs(fields)[i][|ValidPairs(fields)[i]| - 1] == '"'
  {
    if fields != [] {
      ValidPairsEndInQuote(fields[..|fields| - 1]);
    }
  }

  // ---------------------------------------------------------------------------------------------
  // PrometheusMetricWriter

  /** `metricSet` after one value: a name enters on first sight, and only if it is valid. */
  function Add(seen: set<string>, v: MetricValue): set<string>
  {
    if v.name in seen || !ValidMetricName(v.name) then seen else seen + {v.name}
  }

  /** What one `metricValue(v)` sends: nothing for an invalid new name; a header on first sight. */
  function Chunk(seen: set<string>, v: MetricValue): seq<string>
  {
    if v.name in seen then [Text(v, false)]
    else if ValidMetricName(v.name) then [Text(v, true)]
    else []
  }

  /** `metricSet` after a run of values. */
  function Seen(seen: set<string>, vs: seq<MetricValue>): set<string>
  {
    if vs == [] then seen else Add(Seen(seen, vs[..|vs| - 1]), vs[|vs| - 1])
  }

  /** The buffers sent for a run of values. */
  function Emitted(seen: set<string>, vs: seq<MetricValue>): seq<string>
  {
    if vs == [] then [] else Emitted(seen, vs[..|vs| - 1]) + Chunk(Seen(seen, vs[..|vs| - 1]), vs[|vs| - 1])
  }

  /** An exporter: the values it writes, and whether it throws after them. */
  datatype Exporter = Exporter(values: seq<MetricValue>, fails: bool)

  /** The values written in one `writeTo`: exporter after exporter, up to the first that throws. */
  function Run(exporters: seq<Exporter>): seq<MetricValue>
  {
    if exporters == [] then []
    else exporters[0].values + if exporters[0].fails then [] else Run(exporters[1..])
  }

  class PrometheusMetricWriter {
    /** The names whose header has been written. */
    var metricSet: set<string>
    /** The buffers written to the channel, in order. */
    var sent: seq<string>

    constructor()
      ensures metricSet == {} && sent == []
    {
      metricSet := {};
      sent := [];
    }

    /** `metricValue(v)`. */
    method WriteValue(v: MetricValue)
      modifies this
      ensures metricSet == Add(old(metricSet), v)
      ensures sent == old(sent) + Chunk(old(metricSet), v)
    {
      var withHeader := v.name !in metricSet;
      if withHeader {
        var ok := CheckMetricName(v.name);
        if !ok {
          return;
        }
      }
      var data := WriteAsPrometheusText(v, withHeader);
      if withHeader {
        metricSet := metricSet + {v.name};
      }
      sent := sent + [data];
    }

    /** `metricValue(name, value, type, description, ts, vararg fields)`. */
    method WriteFields(name: string, value: Number, metricType: MetricType, description: Option<string>,
                       ts: Option<int>, fields: seq<(string, string)>)
      modifies this
      ensures var v := MetricValue(name, value, metricType, description, ts, fields);
              metricSet == Add(old(metricSet), v) && sent == old(sent) + Chunk(old(metricSet), v)
    {
      WriteValue(MetricValue(name, value, metricType, description, ts, fields));
    }

    /** `metricValue(name, value, type, description, vararg fields)`: no timestamp. */
    method WriteFieldsNow(name: string, value: Number, metricType: MetricType, description: Option<string>,
                          fields: seq<(string, string)>)
      modifies this
      ensures var v := MetricValue(name, value, metricType, description, None, fields);
              metricSet == Add(old(metricSet), v) && sent == old(sent) + Chunk(old(metricSet), v)
    {
      WriteValue(MetricValue(name, value, metricType, description, None, fields));
    }

    /** An exporter writing `vs`, one `metricValue` call each. */
    method WriteValues(vs: seq<MetricValue>)
      modifies this
      ensures metricSet == Seen(old(metricSet), vs)
      ensures sent == old(sent) + Emitted(old(metricSet), vs)
    {
      for i := 0 to |vs|
        invariant metricSet == Seen(old(metricSet), vs[..i])
        invariant sent == old(sent) + Emitted(old(metricSet), vs[..i])
      {
        assert vs[..i + 1][..i] == vs[..i];
        WriteValue(vs[i]);
      }
      assert vs[..|vs|] == vs;
    }
  }

  /** `PrometheusOutput.writeTo`: one writer for all exporters, in order; a throw ends the output. */
  method WriteTo(exporters: seq<Exporter>) returns (sent: seq<string>, completed: bool)
    ensures completed <==> forall i :: 0 <= i < |exporters| ==> !exporters[i].fails
    ensures sent == Emitted({}, Run(exporters))
  {
    var writer := new PrometheusMetricWriter();
    ghost var done: seq<MetricValue> := [];
    for i := 0 to |exporters|
      invariant done + Run(exporters[i..]) == Run(exporters)
      invariant forall j :: 0 <= j < i ==> !exporters[j].fails
      invariant writer.metricSet == Seen({}, done)
      invariant writer.sent == Emitted({}, done)
    {
      var exporter := exporters[i];
      RunFrom(exporters, i);
      ghost var rest := if exporter.fails then [] else Run(exporters[i + 1..]);
      AppendAssoc(done, exporter.values, rest);
      EmittedAppend({}, done, exporter.values);
      writer.WriteValues(exporter.values);
      done := done + exporter.values;
      if exporter.fails {
        assert done == Run(exporters);
        return writer.sent, false;
      }
    }
    assert exporters[|exporters|..] == [];
    assert done + [] == done;
    return writer.sent, true;
  }

  lemma RunFrom(exporters: seq<Exporter>, i: int)
    requires 0 <= i < |exporters|
    ensures Run(exporters[i..]) == exporters[i].values + if exporters[i].fails then [] else Run(exporters[i + 1..])
  {
    assert exporters[i..][1..] == exporters[i + 1..];
  }

  lemma {:induction false} EmittedAppend(seen: set<string>, a: seq<MetricValue>, b: seq<MetricValue>)
    ensures Seen(seen, a + b) == Seen(Seen(seen, a), b)
    ensures Emitted(seen, a + b) == Emitted(seen, a) + Emitted(Seen(seen, a), b)
    decreases |b|
  {
    if b == [] {
      assert a + b == a;
    } else {
      assert (a + b)[..|a + b| - 1] == a + b[..|b| - 1];
      EmittedAppend(seen, a, b[..|b| - 1]);
    }
  }

  // The same run, stated value by value.

  /** Whether the `i`-th value is written at all. */
  predicate Kept(seen: set<string>, vs: seq<MetricValue>, i: int)
    requires 0 <= i < |vs|
  {
    vs[i].name in seen || ValidMetricName(vs[i].name)
  }

  /** No earlier value has the name of the `i`-th. */
  predicate FirstSight(vs: seq<MetricValue>, i: int)
    requires 0 <= i < |vs|
  {
    forall j :: 0 <= j < i ==> vs[j].name != vs[i].name
  }

  /** What is sent for the `i`-th value: its text, headed when its name is new and first seen here. */
  function Entry(seen: set<string>, vs: seq<MetricValue>, i: int): seq<string>
    requires 0 <= i < |vs|
  {
    if Kept(seen, vs, i) then [Text(vs[i], vs[i].name !in seen && FirstSight(vs, i))] else []
  }

  function Listed(seen: set<string>, vs: seq<MetricValue>, i: int): seq<string>
    requires 0 <= i <= |vs|
    decreases |vs| - i
  {
    if i == |vs| then [] else Entry(seen, vs, i) + Listed(seen, vs, i + 1)
  }

  /** The names in `metricSet` after a run: the old ones and the valid names of the run. */
  lemma {:induction false} SeenMembers(seen: set<string>, vs: seq<MetricValue>, n: string)
    ensures n in Seen(seen, vs) <==> n in seen || (ValidMetricName(n) && exists j :: 0 <= j < |vs| && vs[j].name == n)
  {
    if vs != [] {
      var pre := vs[..|vs| - 1];
      SeenMembers(seen, pre, n);
      if ValidMetricName(n) && exists j :: 0 <= j < |vs| && vs[j].name == n {
        var j :| 0 <= j < |vs| && vs[j].name == n;
        if j < |vs| - 1 {
          assert pre[j].name == n;
        }
      }
    }
  }

  lemma {:induction false} ListedSnoc(seen: set<string>, vs: seq<MetricValue>, i: int)
    requires vs != [] && 0 <= i <= |vs| - 1
    ensures Listed(seen, vs, i) == Listed(seen, vs[..|vs| - 1], i) + Entry(seen, vs, |vs| - 1)
    decreases |vs| - i
  {
    if i < |vs| - 1 {
      ListedSnoc(seen, vs, i + 1);
      EntryInPrefix(seen, vs, i);
    }
  }

  /** An entry depends only on the values up to it. */
  lemma EntryInPrefix(seen: set<string>, vs: seq<MetricValue>, i: int)
    requires 0 <= i < |vs| - 1
    ensures Entry(seen, vs, i) == Entry(seen, vs[..|vs| - 1], i)
  {
    var pre := vs[..|vs| - 1];
    assert pre[i] == vs[i];
    assert FirstSight(vs, i) == FirstSight(pre, i) by {
      forall j | 0 <= j < i ensures pre[j] == vs[j] {
      }
    }
  }

  /**
   * The writer sends, in input order, the text of every value whose name is
   * valid or already headed, and puts the header before the first value of
   * each name only; invalid names are always dropped.
   */
  lemma {:induction false} EmittedValueByValue(seen: set<string>, vs: seq<MetricValue>)
    ensures Emitted(seen, vs) == Listed(seen, vs, 0)
  {
    if vs != [] {
      var pre := vs[..|vs| - 1];
      var k := |vs| - 1;
      EmittedValueByValue(seen, pre);
      ListedSnoc(seen, vs, 0);
      SeenMembers(seen, pre, vs[k].name);
      if vs[k].name !in seen && ValidMetricName(vs[k].name) {
        if !FirstSight(vs, k) {
          var j :| 0 <= j < k && vs[j].name == vs[k].name;
          assert pre[j].name == vs[k].name;
        } else {
          forall j | 0 <= j < |pre| ensures pre[j].name != vs[k].name {
            assert pre[j] == vs[j];
          }
        }
      }
    }
  }

  /** `metricSet` only grows, and every name added to it is valid. */
  lemma SeenGrowsWithValidNames(seen: set<string>, vs: seq<MetricValue>)
    ensures seen <= Seen(seen, vs)
    ensures forall n :: n in Seen(seen, vs) - seen ==> ValidMetricName(n)
  {
    forall n | n in seen ensures n in Seen(seen, vs) {
      SeenMembers(seen, vs, n);
    }
    forall n | n in Seen(seen, vs) - seen ensures ValidMetricName(n) {
      SeenMembers(seen, vs, n);
    }
  }
}
