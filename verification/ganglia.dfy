/**
 * The Ganglia XML mapper: the events of a gmond/gmetad XML dump drive a
 * `MutableMetricInfo`, and the end of each METRIC element writes one gauge
 * whose name and labels are rewritten by metric group. Three copies of the
 * mapper exist; `Variant` says which one a member follows.
 */
module Ganglia {
  import opened Bytes
  import opened Strings
  import Metrics

  /** Which copy of the mapper. */
  datatype Variant =
    | Collector        // org.cikit.modules.ganglia.GangliaCollector
    | OlderCollector   // exporter.ganglia.GangliaCollector
    | Exporter         // exporter.ganglia.GangliaExporter

  /** `Type`: the value types of a Ganglia metric. */
  datatype ValueType = String | Int8 | Uint8 | Int16 | Uint16 | Int32 | Uint32 | Float | Double | Timestamp

  function TypeName(t: ValueType): string
  {
    match t
    case String => "String"
    case Int8 => "Int8"
    case Uint8 => "Uint8"
    case Int16 => "Int16"
    case Uint16 => "Uint16"
    case Int32 => "Int32"
    case Uint32 => "Uint32"
    case Float => "Float"
    case Double => "Double"
    case Timestamp => "Timestamp"
  }

  /** `capitalize()`: an ASCII lower-case first letter is upper-cased. */
  function Capitalize(s: string): (r: string)
    ensures |r| == |s| && (s != [] ==> r[1..] == s[1..])
  {
    if s != [] && 'a' <= s[0] <= 'z' then [(s[0] as int - 32) as char] + s[1..] else s
  }

  /** `Type.valueOf(s.capitalize())`; `None` is the `IllegalArgumentException`. */
  function TypeOf(s: string): (r: Option<ValueType>)
    ensures r.Some? ==> TypeName(r.value) == Capitalize(s)
    ensures r.None? ==> forall t :: TypeName(t) != Capitalize(s)
  {
    var c := Capitalize(s);
    if c == "String" then Some(String)
    else if c == "Int8" then Some(Int8)
    else if c == "Uint8" then Some(Uint8)
    else if c == "Int16" then Some(Int16)
    else if c == "Uint16" then Some(Uint16)
    else if c == "Int32" then Some(Int32)
    else if c == "Uint32" then Some(Uint32)
    else if c == "Float" then Some(Float)
    else if c == "Double" then Some(Double)
    else if c == "Timestamp" then Some(Timestamp)
    else None
  }

  /** Every type is read back from its name, and from its name with a lower-case first letter as Ganglia writes it. */
  lemma TypeNamesRead(t: ValueType)
    ensures TypeOf(TypeName(t)) == Some(t)
    ensures var n := TypeName(t); TypeOf([(n[0] as int + 32) as char] + n[1..]) == Some(t)
  {
    var n := TypeName(t);
    CapitalizedRead(n);
    assert TypeOf(n) == Some(t);
  }

  /** A name with an upper-case first letter is read the same with that letter lower-cased. */
  lemma CapitalizedRead(n: string)
    requires n != [] && 'A' <= n[0] <= 'Z'
    ensures TypeOf([(n[0] as int + 32) as char] + n[1..]) == TypeOf(n)
  {
    var lower := [(n[0] as int + 32) as char] + n[1..];
    assert Capitalize(n) == n;
    assert Capitalize(lower) == [n[0]] + n[1..] == n;
  }

  /** `MutableMetricInfo`, as a value. */
  datatype Info = Info(gridName: Option<string>, clusterName: Option<string>, hostName: Option<string>,
                       name: Option<string>, desc: Option<string>, group: Option<string>,
                       value: Option<string>, valueType: ValueType)

  const Initial: Info := Info(None, None, None, None, None, None, None, Double)

  /** An event of the XML reader; attributes as (local name, value) in document order. */
  datatype Event = StartElement(localName: string, attributes: seq<(string, string)>) | EndElement(localName: string) | OtherEvent

  /** What one call does for the writer. */
  datatype Emitted = Skip | Emit(metric: Metrics.MetricValue) | Fail(e: Thrown)

  // ---------------------------------------------------------------------------
  // Name rewriting

  /** `splitToPair(sep)`: split at the LAST `sep`, dropping only its first character. */
  function SplitToPair(s: string, sep: string): (r: Option<(string, string)>)
    requires sep != []
    ensures r.None? <==> forall i :: !At(s, sep, i)
    ensures r.Some? ==> s == r.value.0 + [sep[0]] + r.value.1 && At(s, sep, |r.value.0|)
                        && forall i :: |r.value.0| < i ==> !At(s, sep, i)
  {
    var i := LastIndexOf(s, sep);
    if i < 0 then None
    else
      assert s == s[..i] + [sep[0]] + s[i + 1..] by {
        assert s[i] == s[i..i + |sep|][0];
      }
      Some((s[..i], s[i + 1..]))
  }

  /** A text `x + sep + y` with no later `sep` splits into `x` and the rest after `sep`'s first character. */
  lemma SplitAtLast(x: string, sep: string, y: string)
    requires sep != [] && forall j :: !At(sep[1..] + y, sep, j)
    ensures SplitToPair(x + sep + y, sep) == Some((x, sep[1..] + y))
  {
    var s := x + sep + y;
    assert s[|x|..|x| + |sep|] == sep;
    assert At(s, sep, |x|);
    var tail := sep[1..] + y;
    assert s[|x| + 1..] == tail;
    forall j | |x| < j ensures !At(s, sep, j) {
      NotAtShifted(s, |x| + 1, sep, j);
    }
    assert s[..|x|] == x;
  }

  /** An occurrence in `s` at `j` is one in `s[off..]` at `j - off`. */
  lemma NotAtShifted(s: string, off: nat, sep: string, j: int)
    requires off <= j && off <= |s| && !At(s[off..], sep, j - off)
    ensures !At(s, sep, j)
  {
    if j + |sep| <= |s| {
      assert s[off..][j - off..j - off + |sep|] == s[j..j + |sep|];
    }
  }

  /** A new name, the labels the group adds, and whether the description is cut at its last `": "`. */
  datatype Naming = Naming(name: string, labels: seq<(string, string)>, cutsDesc: bool)

  const HostGroups: seq<string> := ["cpu", "disk", "load", "memory", "network", "process", "system"]

  /** The httpd and jvm rule: `X<sep>Y` becomes `<sep without its dot>Y` with `label=X`. */
  function AgentNaming(raw: string, sep: string, key: string): Naming
    requires sep != []
  {
    match SplitToPair(raw, sep)
    case None => Naming(raw, [], true)
    case Some(p) => Naming(p.1, [(key, p.0)], true)
  }

  /** The vm rule of `Collector`: split at the last `.`; a `.service` prefix names a service, any other a vm. */
  function VmNaming(raw: string): Naming
  {
    match SplitToPair(raw, ".")
    case None => Naming(raw, [], true)
    case Some(p) =>
      if EndsWith(p.0, ".service") then Naming("service_" + p.1, [("service", RemoveSuffix(p.0, ".service"))], true)
      else Naming("vm_" + p.1, [("vm", p.0)], true)
  }

  /** The vm rule of the older mappers: split at `.service.vcpu_` or `.service.vmem_`, dots become underscores. */
  function ServiceNaming(raw: string, sep: string): Naming
    requires sep != []
  {
    match SplitToPair(raw, sep)
    case None => Naming(raw, [], true)
    case Some(p) => Naming(Replace(p.1, '.', '_'), [("service", p.0)], true)
  }

  /** The host-group rule: `hs_` and the group in front, without doubling a group prefix already there. */
  function HostNaming(g: string, raw: string): Naming
  {
    Naming(if StartsWith(raw, g + "_") then "hs_" + raw else "hs_" + g + "_" + raw, [], false)
  }

  /** The `when (metricInfo.group)` of `metricValue`. */
  function Rename(v: Variant, group: Option<string>, raw: string): (r: Naming)
    ensures |r.labels| <= 1
  {
    match group
    case None => Naming("", [], false)
    case Some(g) =>
      if g == "httpd" then AgentNaming(raw, ".http_", "httpd")
      else if v == Collector && g in ["vm cpu", "vm memory", "vm network"] then VmNaming(raw)
      else if v != Collector && g == "vm cpu" then ServiceNaming(raw, ".service.vcpu_")
      else if v != Collector && g == "vm memory" then ServiceNaming(raw, ".service.vmem_")
      else if g == "jvm" then AgentNaming(raw, ".jvm_", "app")
      else if g in HostGroups then HostNaming(g, raw)
      else Naming("", [], false)
  }

  /** The agent rule on `x + sep + y` with no later `sep`. */
  lemma AgentSplit(x: string, sep: string, y: string, key: string)
    requires sep != [] && forall j :: !At(sep[1..] + y, sep, j)
    ensures AgentNaming(x + sep + y, sep, key) == Naming(sep[1..] + y, [(key, x)], true)
  {
    SplitAtLast(x, sep, y);
  }

  /** The older vm rule on `x + sep + y` with no later `sep`. */
  lemma ServiceSplit(x: string, sep: string, y: string)
    requires sep != [] && forall j :: !At(sep[1..] + y, sep, j)
    ensures ServiceNaming(x + sep + y, sep) == Naming(Replace(sep[1..] + y, '.', '_'), [("service", x)], true)
  {
    SplitAtLast(x, sep, y);
  }

  /** Group `httpd`: `X.http_Y` is named `http_Y` with label `httpd=X`, and the description is cut. */
  lemma HttpdNaming(v: Variant, x: string, y: string)
    requires forall j :: !At("http_" + y, ".http_", j)
    ensures Rename(v, Some("httpd"), x + ".http_" + y) == Naming("http_" + y, [("httpd", x)], true)
  {
    var raw := x + ".http_" + y;
    assert Rename(v, Some("httpd"), raw) == AgentNaming(raw, ".http_", "httpd");
    assert ".http_"[1..] == "http_";
    AgentSplit(x, ".http_", y, "httpd");
  }

  /** Group `jvm`: `X.jvm_Y` is named `jvm_Y` with label `app=X`, and the description is cut. */
  lemma JvmNaming(v: Variant, x: string, y: string)
    requires forall j :: !At("jvm_" + y, ".jvm_", j)
    ensures Rename(v, Some("jvm"), x + ".jvm_" + y) == Naming("jvm_" + y, [("app", x)], true)
  {
    var raw := x + ".jvm_" + y;
    assert Rename(v, Some("jvm"), raw) == AgentNaming(raw, ".jvm_", "app");
    assert ".jvm_"[1..] == "jvm_";
    AgentSplit(x, ".jvm_", y, "app");
  }

  /** `Collector`, vm groups: `X.service.Y` (no dot in `Y`) is `service_Y` with `service=X`. */
  lemma ServiceUnitNaming(g: string, x: string, y: string)
    requires g in ["vm cpu", "vm memory", "vm network"] && '.' !in y
    ensures Rename(Collector, Some(g), x + ".service." + y) == Naming("service_" + y, [("service", x)], true)
  {
    var a := x + ".service";
    assert x + ".service." + y == a + "." + y;
    NoDotNoSplit(y);
    SplitAtLast(a, ".", y);
    assert EndsWith(a, ".service");
    assert RemoveSuffix(a, ".service") + ".service" == a;
  }

  /** `Collector`, vm groups: `A.Y` (no dot in `Y`, `A` not ending in `.service`) is `vm_Y` with `vm=A`. */
  lemma VirtualMachineNaming(g: string, a: string, y: string)
    requires g in ["vm cpu", "vm memory", "vm network"] && '.' !in y && !EndsWith(a, ".service")
    ensures Rename(Collector, Some(g), a + "." + y) == Naming("vm_" + y, [("vm", a)], true)
  {
    NoDotNoSplit(y);
    SplitAtLast(a, ".", y);
  }

  lemma NoDotNoSplit(y: string)
    requires '.' !in y
    ensures forall j :: !At("."[1..] + y, ".", j)
  {
    assert "."[1..] + y == y;
    forall j | 0 <= j < |y| ensures !At(y, ".", j) {
      assert y[j] in y;
      if j + 1 <= |y| {
        assert y[j..j + 1] == [y[j]];
      }
    }
  }

  /**
   * The older mappers, group `vm cpu`: `X.service.vcpu_Y` is named
   * `service_vcpu_Y` with `service=X`, every dot of `Y` turned into `_`.
   */
  lemma OlderCpuNaming(v: Variant, x: string, y: string)
    requires v != Collector
    requires forall j :: !At("service.vcpu_" + y, ".service.vcpu_", j)
    ensures Rename(v, Some("vm cpu"), x + ".service.vcpu_" + y)
         == Naming("service_vcpu_" + Replace(y, '.', '_'), [("service", x)], true)
  {
    var raw := x + ".service.vcpu_" + y;
    assert Rename(v, Some("vm cpu"), raw) == ServiceNaming(raw, ".service.vcpu_");
    assert Replace("service.vcpu_", '.', '_') == "service_vcpu_";
    assert ".service.vcpu_"[1..] == "service.vcpu_";
    ServiceRenamed(v, "vm cpu", ".service.vcpu_", x, y, "service_vcpu_");
  }

  /** The older mappers, group `vm memory`: `X.service.vmem_Y` is `service_vmem_Y` with `service=X`. */
  lemma OlderMemoryNaming(v: Variant, x: string, y: string)
    requires v != Collector
    requires forall j :: !At("service.vmem_" + y, ".service.vmem_", j)
    ensures Rename(v, Some("vm memory"), x + ".service.vmem_" + y)
         == Naming("service_vmem_" + Replace(y, '.', '_'), [("service", x)], true)
  {
    var raw := x + ".service.vmem_" + y;
    assert Rename(v, Some("vm memory"), raw) == ServiceNaming(raw, ".service.vmem_");
    assert Replace("service.vmem_", '.', '_') == "service_vmem_";
    assert ".service.vmem_"[1..] == "service.vmem_";
    ServiceRenamed(v, "vm memory", ".service.vmem_", x, y, "service_vmem_");
  }

  /** The older vm rule, for a separator whose dots become `replaced`. */
  lemma ServiceRenamed(v: Variant, g: string, sep: string, x: string, y: string, replaced: string)
    requires sep != [] && forall j :: !At(sep[1..] + y, sep, j)
    requires Rename(v, Some(g), x + sep + y) == ServiceNaming(x + sep + y, sep)
    requires Replace(sep[1..], '.', '_') == replaced
    ensures Rename(v, Some(g), x + sep + y) == Naming(replaced + Replace(y, '.', '_'), [("service", x)], true)
  {
    ServiceSplit(x, sep, y);
    ReplaceAppend(sep[1..], y, '.', '_');
  }

  /**
   * Host groups: the name is `hs_<group>_...` in every case, the group
   * prefix written once whether or not the raw name had it; no label is
   * added and the description is kept.
   */
  lemma HostGroupNaming(v: Variant, g: string, rest: string)
    requires g in HostGroups
    ensures Rename(v, Some(g), g + "_" + rest) == Naming("hs_" + g + "_" + rest, [], false)
    ensures !StartsWith(rest, g + "_") ==> Rename(v, Some(g), rest) == Naming("hs_" + g + "_" + rest, [], false)
  {
    var raw := g + "_" + rest;
    HostDispatch(v, g, raw);
    assert raw[..|g + "_"|] == g + "_";
    assert HostNaming(g, raw).name == "hs_" + raw;
    assert "hs_" + raw == "hs_" + g + "_" + rest;
    HostDispatch(v, g, rest);
  }

  lemma HostDispatch(v: Variant, g: string, raw: string)
    requires g in HostGroups
    ensures Rename(v, Some(g), raw) == HostNaming(g, raw)
  {
    assert g != "httpd" && g != "jvm" && g != "vm cpu" && g != "vm memory" && g != "vm network";
  }

  /** A metric outside the known groups, or without a group, gets the empty name and no label. */
  lemma OtherGroupEmptyName(v: Variant, group: Option<string>, raw: string)
    requires group.Some? ==> group.value !in HostGroups && group.value !in ["httpd", "jvm", "vm cpu", "vm memory"]
    requires group.Some? && v == Collector ==> group.value != "vm network"
    ensures Rename(v, group, raw) == Naming("", [], false)
  {
  }

  /** The older mappers have no rule for `vm network`: it falls through to the empty name. */
  lemma OlderNetworkUnnamed(v: Variant, raw: string)
    requires v != Collector
    ensures Rename(v, Some("vm network"), raw).name == ""
  {
    assert "vm network" !in HostGroups;
  }

  // ---------------------------------------------------------------------------
  // metricValue

  /** `desc?.substringAfterLast(": ")`. */
  function CutDesc(d: Option<string>): (r: Option<string>)
    ensures r.Some? <==> d.Some?
    ensures r.Some? ==> IsSuffixText(r.value, d.value) && forall j :: !At(r.value, ": ", j)
  {
    match d
    case None => None
    case Some(t) => Some(SubstringAfterLast(t, ": "))
  }

  predicate IsSuffixText(r: string, s: string)
  {
    |r| <= |s| && r == s[|s| - |r|..]
  }

  /** The first label: the instance, except in the exporter, whose list starts empty. */
  function InstanceLabel(v: Variant, instance: string): seq<(string, string)>
  {
    if v == Exporter then [] else [("instance", instance)]
  }

  /** The labels of the enclosing GRID, CLUSTER and HOST elements, in that order. */
  function Context(s: Info): seq<(string, string)>
  {
    (if s.gridName.Some? then [("grid", s.gridName.value)] else [])
    + (if s.clusterName.Some? then [("cluster", s.clusterName.value)] else [])
    + (if s.hostName.Some? then [("host", s.hostName.value)] else [])
  }

  /** The number and any `value` label for the raw text; `None` is `toLong`'s `NumberFormatException`. */
  function ValueOf(t: ValueType, text: string): Option<(Metrics.Number, seq<(string, string)>)>
  {
    if t == String then Some((Metrics.Long(1), [("value", text)]))
    else if t == Float || t == Double then Some((Metrics.Double(text), []))
    else match ParseLong(text)
      case None => None
      case Some(n) => Some((Metrics.Long(n), []))
  }

  /** `metricValue`: the description it leaves behind and what it writes. */
  function MetricOf(v: Variant, instance: string, s: Info): (r: (Option<string>, Emitted))
    ensures s.name.None? || s.value.None? ==> r == (s.desc, Skip)
    ensures r.1.Emit? || r.1.Fail? <==>
              s.name.Some? && s.value.Some? && !IsBlank(s.name.value) && !IsBlank(s.value.value)
    ensures r.1.Fail? <==> (r.1.Emit? || r.1.Fail?) && ValueOf(s.valueType, s.value.value).None?
    ensures r.1.Fail? ==> r.1.e == NumberFormat
    ensures r.1.Emit? ==>
              var m := r.1.metric;
              var n := Rename(v, s.group, s.name.value);
              && m.name == n.name && m.metricType == Metrics.Gauge && m.ts.None? && m.description == r.0
              && m.fields == InstanceLabel(v, instance) + n.labels + ValueOf(s.valueType, s.value.value).value.1 + Context(s)
  {
    if s.name.None? || s.value.None? then (s.desc, Skip)
    else
      var raw := s.name.value;
      var text := s.value.value;
      var n := Rename(v, s.group, raw);
      var desc := if n.cutsDesc then CutDesc(s.desc) else s.desc;
      if IsBlank(raw) || IsBlank(text) then (desc, Skip)
      else match ValueOf(s.valueType, text)
        case None => (desc, Fail(NumberFormat))
        case Some(x) =>
          (desc, Emit(Metrics.MetricValue(n.name, x.0, Metrics.Gauge, desc, None,
                                          InstanceLabel(v, instance) + n.labels + x.1 + Context(s))))
  }

  /** The written metric, once the value has been read as `x`. */
  lemma MetricOfEmits(v: Variant, instance: string, s: Info, x: (Metrics.Number, seq<(string, string)>))
    requires s.name.Some? && s.value.Some? && !IsBlank(s.name.value) && !IsBlank(s.value.value)
    requires ValueOf(s.valueType, s.value.value) == Some(x)
    ensures var n := Rename(v, s.group, s.name.value);
            var desc := if n.cutsDesc then CutDesc(s.desc) else s.desc;
            MetricOf(v, instance, s) == (desc, Emit(Metrics.MetricValue(n.name, x.0, Metrics.Gauge, desc, None,
                                                     InstanceLabel(v, instance) + n.labels + x.1 + Context(s))))
  {
  }

  /** A String metric is written as the number 1 with its text as the `value` label. */
  lemma StringMetricIsOne(v: Variant, instance: string, s: Info)
    requires s.name.Some? && s.value.Some? && !IsBlank(s.name.value) && !IsBlank(s.value.value)
    requires s.valueType == String
    ensures var r := MetricOf(v, instance, s).1;
            r.Emit? && r.metric.value == Metrics.Long(1) && ("value", s.value.value) in r.metric.fields
  {
    var r := MetricOf(v, instance, s).1;
    var n := Rename(v, s.group, s.name.value);
    var f := InstanceLabel(v, instance) + n.labels + [("value", s.value.value)];
    assert f[|f| - 1] == ("value", s.value.value);
    assert r.metric.fields == f + Context(s);
    assert r.metric.fields[|f| - 1] == ("value", s.value.value);
  }

  /** The collectors put `instance` first; the exporter writes no `instance` label at all. */
  lemma InstanceLabelPlacement(v: Variant, instance: string, s: Info)
    requires MetricOf(v, instance, s).1.Emit?
    ensures var f := MetricOf(v, instance, s).1.metric.fields;
            && (v != Exporter ==> f != [] && f[0] == ("instance", instance))
            && (v == Exporter ==> forall i :: 0 <= i < |f| ==> f[i].0 != "instance")
  {
    var n := Rename(v, s.group, s.name.value);
    var x := ValueOf(s.valueType, s.value.value).value;
    if v == Exporter {
      RenameLabelKeys(v, s.group, s.name.value);
      assert Unkeyed(n.labels, "instance");
      assert Unkeyed(x.1, "instance");
      assert Unkeyed(Context(s), "instance");
      UnkeyedAppend(n.labels, x.1, "instance");
      UnkeyedAppend(n.labels + x.1, Context(s), "instance");
    }
  }

  /** No label of `fs` is named `key`. */
  predicate Unkeyed(fs: seq<(string, string)>, key: string)
  {
    forall i :: 0 <= i < |fs| ==> fs[i].0 != key
  }

  lemma UnkeyedAppend(a: seq<(string, string)>, b: seq<(string, string)>, key: string)
    requires Unkeyed(a, key) && Unkeyed(b, key)
    ensures Unkeyed(a + b, key)
  {
    forall i | 0 <= i < |a + b| ensures (a + b)[i].0 != key {
      if i >= |a| {
        assert (a + b)[i] == b[i - |a|];
      }
    }
  }

  /** The group label is one of `httpd`, `service`, `vm` and `app`. */
  lemma RenameLabelKeys(v: Variant, group: Option<string>, raw: string)
    ensures forall i :: 0 <= i < |Rename(v, group, raw).labels| ==> Rename(v, group, raw).labels[i].0 in ["httpd", "service", "vm", "app"]
  {
  }

  /**
   * Inside a HOST element the metric carries that host as its last label;
   * with no enclosing GRID, CLUSTER or HOST there is no context label.
   */
  lemma HostLabelLast(v: Variant, instance: string, s: Info)
    requires MetricOf(v, instance, s).1.Emit?
    ensures var f := MetricOf(v, instance, s).1.metric.fields;
            s.hostName.Some? ==> f != [] && f[|f| - 1] == ("host", s.hostName.value)
    ensures s.gridName.None? && s.clusterName.None? && s.hostName.None? ==> Context(s) == []
  {
  }

  // ---------------------------------------------------------------------------
  // processEvent

  /** The value of the last attribute named `key`, or `current` when there is none. */
  function Attr(attrs: seq<(string, string)>, key: string, current: Option<string>): (r: Option<string>)
    ensures (forall k :: 0 <= k < |attrs| ==> attrs[k].0 != key) ==> r == current
    ensures forall k :: 0 <= k < |attrs| && attrs[k].0 == key && (forall m :: k < m < |attrs| ==> attrs[m].0 != key)
              ==> r == Some(attrs[k].1)
  {
    if attrs == [] then current
    else
      var last := attrs[|attrs| - 1];
      var pre := attrs[..|attrs| - 1];
      assert forall k :: 0 <= k < |pre| ==> pre[k] == attrs[k];
      if last.0 == key then Some(last.1) else Attr(pre, key, current)
  }

  /** The METRIC attribute loop: the record so far, `tn`, `tmax`, and an exception that ended it. */
  datatype MetricScan = MetricScan(info: Info, tn: int, tmax: int, failure: Option<Thrown>)

  function MetricAttr(sc: MetricScan, a: (string, string)): MetricScan
  {
    if sc.failure.Some? then sc
    else if a.0 == "NAME" then sc.(info := sc.info.(name := Some(a.1)))
    else if a.0 == "VAL" then sc.(info := sc.info.(value := Some(a.1)))
    else if a.0 == "TYPE" then
      match TypeOf(a.1)
      case None => sc.(failure := Some(IllegalArgument))
      case Some(t) => sc.(info := sc.info.(valueType := t))
    else if a.0 == "TN" then
      match ParseLong(a.1)
      case None => sc.(failure := Some(NumberFormat))
      case Some(n) => sc.(tn := n)
    else if a.0 == "TMAX" then
      match ParseLong(a.1)
      case None => sc.(failure := Some(NumberFormat))
      case Some(n) => sc.(tmax := n)
    else sc
  }

  function MetricAttrs(sc: MetricScan, attrs: seq<(string, string)>): MetricScan
  {
    if attrs == [] then sc else MetricAttr(MetricAttrs(sc, attrs[..|attrs| - 1]), attrs[|attrs| - 1])
  }

  /** Once an attribute throws, the rest of the loop never runs. */
  lemma {:induction false} FailureStops(sc: MetricScan, attrs: seq<(string, string)>, k: nat)
    requires k <= |attrs| && MetricAttrs(sc, attrs[..k]).failure.Some?
    ensures MetricAttrs(sc, attrs) == MetricAttrs(sc, attrs[..k])
  {
    if k < |attrs| {
      var pre := attrs[..|attrs| - 1];
      assert pre[..k] == attrs[..k];
      FailureStops(sc, pre, k);
    } else {
      assert attrs[..k] == attrs;
    }
  }

  /** The per-metric fields after END METRIC: cleared, the type back to Double, the context kept. */
  function Reset(s: Info): (r: Info)
    ensures r == Initial.(gridName := s.gridName, clusterName := s.clusterName, hostName := s.hostName)
  {
    s.(name := None, desc := None, group := None, valueType := Double, value := None)
  }

  /** `processEvent`: the new record and what is written. */
  function Step(v: Variant, instance: string, s: Info, e: Event): (Info, Emitted)
  {
    match e
    case StartElement(n, attrs) =>
      if n == "GRID" then (s.(gridName := Attr(attrs, "NAME", s.gridName)), Skip)
      else if n == "CLUSTER" then (s.(clusterName := Attr(attrs, "NAME", s.clusterName)), Skip)
      else if n == "HOST" then (s.(hostName := Attr(attrs, "NAME", s.hostName)), Skip)
      else if n == "METRIC" then
        var sc := MetricAttrs(MetricScan(s, 0, -1, None), attrs);
        if sc.failure.Some? then (sc.info, Fail(sc.failure.value))
        else if sc.tn > sc.tmax then (sc.info.(name := None), Skip)
        else (sc.info, Skip)
      else if n == "EXTRA_ELEMENT" then
        var extraName := Attr(attrs, "NAME", None);
        var extraVal := Attr(attrs, "VAL", None);
        if extraName == Some("GROUP") then (s.(group := extraVal), Skip)
        else if extraName == Some("DESC") then (s.(desc := extraVal), Skip)
        else (s, Skip)
      else (s, Skip)
    case EndElement(n) =>
      if n == "GRID" then (s.(gridName := None), Skip)
      else if n == "CLUSTER" then (s.(clusterName := None), Skip)
      else if n == "HOST" then (s.(hostName := None), Skip)
      else if n == "METRIC" then
        var m := MetricOf(v, instance, s);
        if m.1.Fail? then (s.(desc := m.0), m.1) else (Reset(s), m.1)
      else (s, Skip)
    case OtherEvent => (s, Skip)
  }

  /** Only the end of a METRIC element writes anything. */
  lemma OnlyMetricEndWrites(v: Variant, instance: string, s: Info, e: Event)
    requires Step(v, instance, s, e).1.Emit?
    ensures e == EndElement("METRIC")
  {
  }

  /** The end of a GRID, CLUSTER or HOST element clears that context and nothing else. */
  lemma ContextCleared(v: Variant, instance: string, s: Info)
    ensures Step(v, instance, s, EndElement("GRID")) == (s.(gridName := None), Skip)
    ensures Step(v, instance, s, EndElement("CLUSTER")) == (s.(clusterName := None), Skip)
    ensures Step(v, instance, s, EndElement("HOST")) == (s.(hostName := None), Skip)
  {
  }

  /** The scan leaves `tn` and `tmax` at their defaults when neither attribute is present. */
  lemma {:induction false} NoThresholds(sc: MetricScan, attrs: seq<(string, string)>)
    requires forall k :: 0 <= k < |attrs| ==> attrs[k].0 != "TN" && attrs[k].0 != "TMAX"
    ensures MetricAttrs(sc, attrs).tn == sc.tn && MetricAttrs(sc, attrs).tmax == sc.tmax
  {
    if attrs != [] {
      NoThresholds(sc, attrs[..|attrs| - 1]);
    }
  }

  /**
   * `TN` defaults to 0 and `TMAX` to -1: a METRIC element with neither is
   * dropped, its END writes nothing and still resets the per-metric fields.
   */
  lemma MetricWithoutThresholdsDropped(v: Variant, instance: string, s: Info, attrs: seq<(string, string)>)
    requires forall k :: 0 <= k < |attrs| ==> attrs[k].0 != "TN" && attrs[k].0 != "TMAX"
    requires MetricAttrs(MetricScan(s, 0, -1, None), attrs).failure.None?
    ensures var s1 := Step(v, instance, s, StartElement("METRIC", attrs)).0;
            s1.name.None? && Step(v, instance, s1, EndElement("METRIC")) == (Reset(s1), Skip)
  {
    NoThresholds(MetricScan(s, 0, -1, None), attrs);
  }

  /** A stale METRIC (`TN > TMAX`) writes nothing at its end. */
  lemma StaleMetricDropped(v: Variant, instance: string, s: Info, attrs: seq<(string, string)>)
    requires var sc := MetricAttrs(MetricScan(s, 0, -1, None), attrs); sc.failure.None? && sc.tn > sc.tmax
    ensures var s1 := Step(v, instance, s, StartElement("METRIC", attrs)).0;
            Step(v, instance, s1, EndElement("METRIC")).1 == Skip
  {
  }

  /** The events of one `export`, in order: the records, what was written, and the exception that ended it. */
  function Run(v: Variant, instance: string, s: Info, events: seq<Event>): (Info, seq<Metrics.MetricValue>, Option<Thrown>)
  {
    if events == [] then (s, [], None)
    else
      var r := Run(v, instance, s, events[..|events| - 1]);
      if r.2.Some? then r
      else
        var st := Step(v, instance, r.0, events[|events| - 1]);
        match st.1
        case Skip => (st.0, r.1, None)
        case Emit(m) => (st.0, r.1 + [m], None)
        case Fail(x) => (st.0, r.1, Some(x))
  }

  /** `Run` over one more event. */
  lemma RunNext(v: Variant, instance: string, events: seq<Event>, i: nat)
    requires i < |events|
    ensures var r := Run(v, instance, Initial, events[..i]);
            var st := Step(v, instance, r.0, events[i]);
            r.2.None? ==>
              Run(v, instance, Initial, events[..i + 1])
              == (st.0, if st.1.Emit? then r.1 + [st.1.metric] else r.1, if st.1.Fail? then Some(st.1.e) else None)
  {
    assert events[..i + 1][..i] == events[..i];
  }

  lemma {:induction false} RunStopped(v: Variant, instance: string, s: Info, events: seq<Event>, k: nat)
    requires k <= |events| && Run(v, instance, s, events[..k]).2.Some?
    ensures Run(v, instance, s, events) == Run(v, instance, s, events[..k])
  {
    if k < |events| {
      var pre := events[..|events| - 1];
      assert pre[..k] == events[..k];
      RunStopped(v, instance, s, pre, k);
    } else {
      assert events[..k] == events;
    }
  }

  /** Everything written is a gauge. */
  lemma {:induction false} AllGauges(v: Variant, instance: string, s: Info, events: seq<Event>)
    ensures forall i :: 0 <= i < |Run(v, instance, s, events).1| ==> Run(v, instance, s, events).1[i].metricType == Metrics.Gauge
  {
    if events != [] {
      AllGauges(v, instance, s, events[..|events| - 1]);
    }
  }

  /** `MutableMetricInfo`, updated in place by `processEvent`. */
  class MetricInfo {
    var gridName: Option<string>
    var clusterName: Option<string>
    var hostName: Option<string>
    var name: Option<string>
    var desc: Option<string>
    var group: Option<string>
    var value: Option<string>
    var valueType: ValueType

    function State(): Info
      reads this
    {
      Info(gridName, clusterName, hostName, name, desc, group, value, valueType)
    }

    constructor()
      ensures State() == Initial
    {
      gridName, clusterName, hostName := None, None, None;
      name, desc, group, value := None, None, None, None;
      valueType := Double;
    }

    /** `metricValue`: rewrites `desc` for the agent and vm groups, and builds the label list. */
    method MetricValue(v: Variant, instance: string) returns (out: Emitted)
      modifies this
      ensures State() == old(State()).(desc := MetricOf(v, instance, old(State())).0)
      ensures out == MetricOf(v, instance, old(State())).1
    {
      ghost var s0 := State();
      if name.None? || value.None? {
        return Skip;
      }
      var raw := name.value;
      var text := value.value;
      var fields: seq<(string, string)> := if v == Exporter then [] else [("instance", instance)];
      var naming := Rename(v, group, raw);
      if naming.cutsDesc && desc.Some? {
        desc := Some(SubstringAfterLast(desc.value, ": "));
      }
      fields := fields + naming.labels;
      if IsBlank(raw) || IsBlank(text) {
        return Skip;
      }
      var number: Metrics.Number;
      if valueType == String {
        fields := fields + [("value", text)];
        number := Metrics.Long(1);
      } else if valueType == Float || valueType == Double {
        number := Metrics.Double(text);
      } else {
        var n := ParseLong(text);
        if n.None? {
          return Fail(NumberFormat);
        }
        number := Metrics.Long(n.value);
      }
      ghost var x := ValueOf(valueType, text).value;
      assert number == x.0 && fields == InstanceLabel(v, instance) + naming.labels + x.1;
      fields := fields + Context(State());
      out := Emit(Metrics.MetricValue(naming.name, number, Metrics.Gauge, desc, None, fields));
      MetricOfEmits(v, instance, s0, x);
    }

    /** The METRIC attribute loop, then the `tn > tmax` check. */
    method ScanMetric(attrs: seq<(string, string)>) returns (failure: Option<Thrown>)
      modifies this
      ensures var sc := MetricAttrs(MetricScan(old(State()), 0, -1, None), attrs);
              && failure == sc.failure
              && State() == (if failure.None? && sc.tn > sc.tmax then sc.info.(name := None) else sc.info)
    {
      var tn := 0;
      var tmax := -1;
      ghost var s0 := State();
      for i := 0 to |attrs|
        invariant MetricAttrs(MetricScan(s0, 0, -1, None), attrs[..i]) == MetricScan(State(), tn, tmax, None)
      {
        assert attrs[..i + 1][..i] == attrs[..i];
        var key := attrs[i].0;
        var text := attrs[i].1;
        if key == "NAME" {
          name := Some(text);
        } else if key == "VAL" {
          value := Some(text);
        } else if key == "TYPE" {
          var t := TypeOf(text);
          if t.None? {
            FailureStops(MetricScan(s0, 0, -1, None), attrs, i + 1);
            return Some(IllegalArgument);
          }
          valueType := t.value;
        } else if key == "TN" {
          var n := ParseLong(text);
          if n.None? {
            FailureStops(MetricScan(s0, 0, -1, None), attrs, i + 1);
            return Some(NumberFormat);
          }
          tn := n.value;
        } else if key == "TMAX" {
          var n := ParseLong(text);
          if n.None? {
            FailureStops(MetricScan(s0, 0, -1, None), attrs, i + 1);
            return Some(NumberFormat);
          }
          tmax := n.value;
        }
      }
      assert attrs[..|attrs|] == attrs;
      if tn > tmax {
        name := None;
      }
      return None;
    }

    /** `processEvent`. */
    method ProcessEvent(v: Variant, instance: string, e: Event) returns (out: Emitted)
      modifies this
      ensures (State(), out) == Step(v, instance, old(State()), e)
    {
      out := Skip;
      match e {
        case StartElement(n, attrs) =>
          if n == "GRID" {
            gridName := LastAttr(attrs, "NAME", gridName);
          } else if n == "CLUSTER" {
            clusterName := LastAttr(attrs, "NAME", clusterName);
          } else if n == "HOST" {
            hostName := LastAttr(attrs, "NAME", hostName);
          } else if n == "METRIC" {
            var failure := ScanMetric(attrs);
            if failure.Some? {
              out := Fail(failure.value);
            }
          } else if n == "EXTRA_ELEMENT" {
            var extraName := LastAttr(attrs, "NAME", None);
            var extraVal := LastAttr(attrs, "VAL", None);
            if extraName == Some("GROUP") {
              group := extraVal;
            } else if extraName == Some("DESC") {
              desc := extraVal;
            }
          }
        case EndElement(n) =>
          if n == "GRID" {
            gridName := None;
          } else if n == "CLUSTER" {
            clusterName := None;
          } else if n == "HOST" {
            hostName := None;
          } else if n == "METRIC" {
            out := MetricValue(v, instance);
            if !out.Fail? {
              name := None;
              desc := None;
              group := None;
              valueType := Double;
              value := None;
            }
          }
        case OtherEvent =>
      }
    }
  }

  /** One attribute loop: the last value under `key` replaces `current`. */
  method LastAttr(attrs: seq<(string, string)>, key: string, current: Option<string>) returns (r: Option<string>)
    ensures r == Attr(attrs, key, current)
  {
    r := current;
    for i := 0 to |attrs|
      invariant r == Attr(attrs[..i], key, current)
    {
      assert attrs[..i + 1][..i] == attrs[..i];
      if attrs[i].0 == key {
        r := Some(attrs[i].1);
      }
    }
    assert attrs[..|attrs|] == attrs;
  }

  /** The event loop of `export`: a fresh record, every event in order, stopping at the first exception. */
  method Export(v: Variant, instance: string, events: seq<Event>) returns (written: seq<Metrics.MetricValue>, error: Option<Thrown>)
    ensures written == Run(v, instance, Initial, events).1 && error == Run(v, instance, Initial, events).2
  {
    var info := new MetricInfo();
    written := [];
    error := None;
    for i := 0 to |events|
      invariant Run(v, instance, Initial, events[..i]) == (info.State(), written, None)
    {
      RunNext(v, instance, events, i);
      var out := info.ProcessEvent(v, instance, events[i]);
      match out {
        case Skip =>
        case Emit(m) => written := written + [m];
        case Fail(x) =>
          RunStopped(v, instance, Initial, events, i + 1);
          return written, Some(x);
      }
    }
    assert events[..|events|] == events;
  }
}
