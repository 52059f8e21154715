/**
 * The first version of the metric model: three metric types and a nullable
 * field array, with the two `metricValue` helpers.
 */
module LegacyMetrics {
  import opened Bytes
  import Metrics

  /** `MetricType`: no `Histogram` yet. */
  datatype MetricType = Counter | Gauge | Summary

  /** `type.toString().toLowerCase()`. */
  function TypeName(t: MetricType): (r: string)
    ensures r != [] && ' ' !in r && '\n' !in r
  {
    match t
    case Counter => "counter"
    case Gauge => "gauge"
    case Summary => "summary"
  }

  /** `MetricValue`; `fields` defaults to null. */
  datatype MetricValue = MetricValue(name: string, value: Metrics.Number, metricType: MetricType,
                                     description: Option<string>, ts: Option<int>,
                                     fields: Option<seq<(string, string)>>)

  /** `metricValue(name, value, type, description, ts, vararg fields)`. */
  function ValueAt(name: string, value: Metrics.Number, metricType: MetricType, description: Option<string>,
                   ts: Option<int>, fields: seq<(string, string)>): (r: MetricValue)
    ensures r.fields.Some? && r.fields.value == fields
    ensures r.ts == ts
  {
    MetricValue(name, value, metricType, description, ts, Some(fields))
  }

  /** `metricValue(name, value, type, description, vararg fields)`: no timestamp. */
  function ValueNow(name: string, value: Metrics.Number, metricType: MetricType, description: Option<string>,
                    fields: seq<(string, string)>): (r: MetricValue)
    ensures r.fields.Some? && r.fields.value == fields
    ensures r.ts.None?
  {
    MetricValue(name, value, metricType, description, None, Some(fields))
  }
}

/**
 * The first exposition renderer: a header per distinct name within one
 * `writeTo`, no name checks and no escaping.
 */
module LegacyPrometheus {
  import opened Bytes
  import opened LegacyMetrics
  import Metrics
  import Prometheus

  /** `k="v"` as written, verbatim. */
  function Pair(p: (string, string)): string
  {
    p.0 + "=\"" + p.1 + "\""
  }

  /** `joinToString(",", "{", "}")` of the pairs. */
  function JoinPairs(fields: seq<(string, string)>): string
  {
    if fields == [] then ""
    else if |fields| == 1 then Pair(fields[0])
    else JoinPairs(fields[..|fields| - 1]) + "," + Pair(fields[|fields| - 1])
  }

  /** No braces for null fields; braces for any array, even an empty one. */
  function Braces(fields: Option<seq<(string, string)>>): string
  {
    match fields
    case None => ""
    case Some(fs) => "{" + JoinPairs(fs) + "}"
  }

  /** The `# TYPE` line and, with a description, the `# HELP` line, verbatim. */
  function Header(v: MetricValue): string
  {
    "# TYPE " + v.name + " " + TypeName(v.metricType) + "\n"
    + match v.description
      case None => ""
      case Some(d) => "# HELP " + v.name + " " + d + "\n"
  }

  function Stamp(ts: Option<int>): string
  {
    match ts
    case None => ""
    case Some(t) => " " + Metrics.IntText(t)
  }

  function Sample(v: MetricValue): string
  {
    v.name + Braces(v.fields) + " " + Metrics.NumberText(v.value) + Stamp(v.ts) + "\n"
  }

  function Entry(v: MetricValue, withHeader: bool): string
  {
    (if withHeader then Header(v) else "") + Sample(v)
  }

  function Names(vs: seq<MetricValue>): set<string>
  {
    if vs == [] then {} else Names(vs[..|vs| - 1]) + {vs[|vs| - 1].name}
  }

  /** The texts written in one `writeTo` over `vs`, one per value. */
  function Render(vs: seq<MetricValue>): seq<string>
  {
    if vs == [] then []
    else
      var pre := vs[..|vs| - 1];
      Render(pre) + [Entry(vs[|vs| - 1], vs[|vs| - 1].name !in Names(pre))]
  }

  /** The texts one after the other. */
  function Concat(ts: seq<string>): string
  {
    if ts == [] then "" else Concat(ts[..|ts| - 1]) + ts[|ts| - 1]
  }

  /** `PrometheusOutput.writeTo`: the local `metricSet` and the writer appends. */
  method WriteTo(vs: seq<MetricValue>) returns (text: string)
    ensures text == Concat(Render(vs))
  {
    var metricSet: set<string> := {};
    text := "";
    for i := 0 to |vs|
      invariant metricSet == Names(vs[..i])
      invariant text == Concat(Render(vs[..i]))
    {
      var v := vs[i];
      var withHeader := v.name !in metricSet;
      var out := WriteEntry(v, withHeader);
      RenderStep(vs, i, metricSet, out);
      if withHeader {
        metricSet := metricSet + {v.name};
      }
      ConcatSnoc(Render(vs[..i]), out);
      text := text + out;
    }
    assert vs[..|vs|] == vs;
  }

  lemma RenderStep(vs: seq<MetricValue>, i: int, metricSet: set<string>, out: string)
    requires 0 <= i < |vs| && metricSet == Names(vs[..i])
    requires out == Entry(vs[i], vs[i].name !in metricSet)
    ensures Render(vs[..i + 1]) == Render(vs[..i]) + [out]
    ensures Names(vs[..i + 1]) == metricSet + {vs[i].name}
  {
    assert vs[..i + 1][..i] == vs[..i];
  }

  lemma ConcatSnoc(ts: seq<string>, t: string)
    ensures Concat(ts + [t]) == Concat(ts) + t
  {
    assert (ts + [t])[..|ts|] == ts;
  }

  /** The body of the `forEach`, after the `metricSet` update. */
  method WriteEntry(v: MetricValue, withHeader: bool) returns (out: string)
    ensures out == Entry(v, withHeader)
  {
    out := "";
    if withHeader {
      out := out + "# TYPE " + v.name + " " + TypeName(v.metricType) + "\n";
      if v.description.Some? {
        out := out + "# HELP " + v.name + " " + v.description.value + "\n";
      }
    }
    assert out == if withHeader then Header(v) else "";
    var head := out;
    var braces := "";
    if v.fields.Some? {
      braces := Braces(v.fields);
    }
    var stamp := "";
    if v.ts.Some? {
      stamp := " " + Metrics.IntText(v.ts.value);
    }
    out := out + (v.name + braces + " " + Metrics.NumberText(v.value) + stamp + "\n");
  }

  // The same text, stated value by value.

  predicate FirstSight(vs: seq<MetricValue>, i: int)
    requires 0 <= i < |vs|
  {
    forall j :: 0 <= j < i ==> vs[j].name != vs[i].name
  }

  function Listed(vs: seq<MetricValue>, i: int): seq<string>
    requires 0 <= i <= |vs|
    decreases |vs| - i
  {
    if i == |vs| then [] else [EntryAt(vs, i)] + Listed(vs, i + 1)
  }

  /** The text of the `i`-th value: headed when no earlier value has its name. */
  function EntryAt(vs: seq<MetricValue>, i: int): string
    requires 0 <= i < |vs|
  {
    Entry(vs[i], FirstSight(vs, i))
  }

  lemma {:induction false} NamesMembers(vs: seq<MetricValue>, n: string)
    ensures n in Names(vs) <==> exists j :: 0 <= j < |vs| && vs[j].name == n
  {
    if vs != [] {
      var pre := vs[..|vs| - 1];
      NamesMembers(pre, n);
      if exists j :: 0 <= j < |vs| && vs[j].name == n {
        var j :| 0 <= j < |vs| && vs[j].name == n;
        if j < |vs| - 1 {
          assert pre[j].name == n;
        }
      }
    }
  }

  lemma EntryInPrefix(vs: seq<MetricValue>, i: int)
    requires 0 <= i < |vs| - 1
    ensures EntryAt(vs, i) == EntryAt(vs[..|vs| - 1], i)
  {
    var pre := vs[..|vs| - 1];
    assert pre[i] == vs[i];
    assert FirstSight(vs, i) == FirstSight(pre, i) by {
      forall j | 0 <= j < i ensures pre[j] == vs[j] {
      }
    }
  }

  lemma {:induction false} ListedSnoc(vs: seq<MetricValue>, i: int)
    requires vs != [] && 0 <= i <= |vs| - 1
    ensures Listed(vs, i) == Listed(vs[..|vs| - 1], i) + [EntryAt(vs, |vs| - 1)]
    decreases |vs| - i
  {
    if i < |vs| - 1 {
      ListedSnoc(vs, i + 1);
      EntryInPrefix(vs, i);
    }
  }

  /**
   * Every value is written, in input order; the header goes in front of the
   * first value of each name only, with no check of the name.
   */
  lemma {:induction false} RenderValueByValue(vs: seq<MetricValue>)
    ensures Render(vs) == Listed(vs, 0)
  {
    if vs != [] {
      var pre := vs[..|vs| - 1];
      var k := |vs| - 1;
      RenderValueByValue(pre);
      ListedSnoc(vs, 0);
      FirstSightNames(vs);
      assert Render(vs) == Render(pre) + [EntryAt(vs, k)];
    }
  }

  /** The last value is seen first exactly when its name is not among the earlier names. */
  lemma FirstSightNames(vs: seq<MetricValue>)
    requires vs != []
    ensures FirstSight(vs, |vs| - 1) <==> vs[|vs| - 1].name !in Names(vs[..|vs| - 1])
  {
    var pre := vs[..|vs| - 1];
    var k := |vs| - 1;
    NamesMembers(pre, vs[k].name);
    if !FirstSight(vs, k) {
      var j :| 0 <= j < k && vs[j].name == vs[k].name;
      assert pre[j].name == vs[k].name;
    } else {
      forall j | 0 <= j < |pre| ensures pre[j].name != vs[k].name {
        assert pre[j] == vs[j];
      }
    }
  }

  /**
   * Values built by the helpers always carry a field array, so their sample
   * always has braces, `{}` when no field is given.
   */
  lemma HelperValuesHaveBraces(name: string, value: Metrics.Number, metricType: MetricType,
                               description: Option<string>, fields: seq<(string, string)>)
    ensures var s := Sample(ValueNow(name, value, metricType, description, fields));
            |s| > |name| && s[..|name| + 1] == name + "{"
    ensures fields == [] ==> Braces(ValueNow(name, value, metricType, description, fields).fields) == "{}"
  {
    var v := ValueNow(name, value, metricType, description, fields);
    var rest := JoinPairs(fields) + "}" + " " + Metrics.NumberText(value) + Stamp(v.ts) + "\n";
    assert Sample(v) == (name + "{") + rest;
  }

  /**
   * The first renderer writes a description verbatim; the later one escapes
   * it, and the two agree exactly on descriptions without a backslash or a
   * newline.
   */
  lemma {:induction false} HelpVerbatim(d: string)
    ensures Prometheus.Escaped(d, false) == d <==> '\\' !in d && '\n' !in d
  {
    if d != [] {
      HelpVerbatim(d[1..]);
      var e := Prometheus.EscapeChar(d[0], false);
      var rest := Prometheus.Escaped(d[1..], false);
      if d[0] == '\\' || d[0] == '\n' {
        Prometheus.EscapedNotShorter(d[1..], false);
        assert |e + rest| > |d|;
      } else {
        assert d == [d[0]] + d[1..];
      }
    }
  }
}
