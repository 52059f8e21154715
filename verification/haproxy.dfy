/**
 * The HAProxy stats mapper: the CSV served at `/;csv;norefresh` becomes one
 * labelled metric per known column of every proxy row. Three copies exist;
 * `Variant` says which one a member follows. The lines are those after the
 * HTTP response headers, as the line reader delivers them.
 */
module HAProxy {
  import opened Bytes
  import opened Strings
  import Metrics

  /** Which copy of the mapper. */
  datatype Variant =
    | Collector        // org.cikit.modules.haproxy.HAProxyCollector
    | OlderCollector   // exporter.haproxy.HAProxyCollector
    | Exporter         // exporter.haproxy.HAProxyExporter

  // ---------------------------------------------------------------------------
  // Endpoint address

  /** The URL's port, 80 when the URL has none (`port <= 0`). */
  function Port(urlPort: int): (r: int)
    ensures r > 0
    ensures urlPort > 0 ==> r == urlPort
    ensures urlPort <= 0 ==> r == 80
  {
    if urlPort <= 0 then 80 else urlPort
  }

  const CsvSuffix: string := "/;csv;norefresh"

  /** The request path: any trailing `/;csv;norefresh` removed, then one appended. */
  function Uri(path: string): (r: string)
    ensures EndsWith(r, CsvSuffix)
    ensures !EndsWith(path, CsvSuffix) ==> r == path + CsvSuffix
    ensures EndsWith(path, CsvSuffix) ==> r == path
  {
    var r := RemoveSuffix(path, CsvSuffix) + CsvSuffix;
    assert r[|r| - |CsvSuffix|..] == CsvSuffix;
    r
  }

  /** Building the path twice changes nothing: the suffix is never doubled. */
  lemma UriIdempotent(path: string)
    ensures Uri(Uri(path)) == Uri(path)
  {
  }

  // ---------------------------------------------------------------------------
  // CSV

  predicate IsHash(c: char)
  {
    c == '#'
  }

  /** The header line: leading `#`s dropped, split at commas, every name trimmed. */
  function Headers(line: string): (r: seq<string>)
    ensures |r| >= 1
    ensures forall i :: 0 <= i < |r| ==> ',' !in r[i] && Trim(r[i]) == r[i]
  {
    var cells := Split(TrimStart(line, IsHash), ',');
    var r := seq(|cells|, i requires 0 <= i < |cells| => Trim(cells[i]));
    assert forall i :: 0 <= i < |r| ==> ',' !in r[i] && Trim(r[i]) == r[i] by {
      forall i | 0 <= i < |r| ensures ',' !in r[i] && Trim(r[i]) == r[i] {
        TrimWithin(cells[i]);
        TrimTwice(cells[i]);
      }
    }
    r
  }

  /**
   * The header line HAProxy writes, `#` signs and then the names joined by
   * commas, gives back the names trimmed.
   */
  lemma HeadersOfLine(hashes: string, names: seq<string>)
    requires forall i :: 0 <= i < |hashes| ==> hashes[i] == '#'
    requires |names| >= 1 && forall i :: 0 <= i < |names| ==> ',' !in names[i]
    requires names[0] == [] || names[0][0] != '#'
    ensures Headers(hashes + Join(names, ',')) == seq(|names|, i requires 0 <= i < |names| => Trim(names[i]))
  {
    var j := Join(names, ',');
    JoinStart(names);
    TrimStartAfter(hashes, j, IsHash);
    JoinSplit(names, ',');
  }

  lemma JoinStart(names: seq<string>)
    requires |names| >= 1
    requires names[0] == [] || names[0][0] != '#'
    ensures var j := Join(names, ','); j == [] || j[0] != '#'
  {
    if |names| > 1 {
      var j := Join(names, ',');
      assert j == names[0] + [','] + Join(names[1..], ',');
      if names[0] == [] {
        assert j[0] == ',';
      } else {
        assert j[0] == names[0][0];
      }
    }
  }

  lemma {:induction false} TrimStartAfter(pre: string, s: string, p: char -> bool)
    requires forall i :: 0 <= i < |pre| ==> p(pre[i])
    requires s == [] || !p(s[0])
    ensures TrimStart(pre + s, p) == s
  {
    if pre != [] {
      assert (pre + s)[1..] == pre[1..] + s;
      TrimStartAfter(pre[1..], s, p);
    } else {
      assert pre + s == s;
    }
  }

  /** `toMap()` of the (header, cell) pairs: later pairs overwrite earlier ones. */
  function ToMap(ps: seq<(string, string)>): map<string, string>
  {
    if ps == [] then map[] else ToMap(ps[..|ps| - 1])[ps[|ps| - 1].0 := ps[|ps| - 1].1]
  }

  /** The keys of the map are the first components of the pairs. */
  lemma {:induction false} ToMapKeys(ps: seq<(string, string)>, k: string)
    ensures k in ToMap(ps) <==> exists i :: 0 <= i < |ps| && ps[i].0 == k
  {
    if ps != [] {
      var pre := ps[..|ps| - 1];
      ToMapKeys(pre, k);
      if k in ToMap(ps) && k != ps[|ps| - 1].0 {
        var i :| 0 <= i < |pre| && pre[i].0 == k;
        assert ps[i] == pre[i];
      }
      if exists i :: 0 <= i < |ps| && ps[i].0 == k {
        var i :| 0 <= i < |ps| && ps[i].0 == k;
        if i < |pre| {
          assert pre[i] == ps[i];
        }
      }
    }
  }

  /** A repeated key keeps the value of its last pair. */
  lemma {:induction false} ToMapLast(ps: seq<(string, string)>, i: int)
    requires 0 <= i < |ps| && forall j :: i < j < |ps| ==> ps[j].0 != ps[i].0
    ensures ps[i].0 in ToMap(ps) && ToMap(ps)[ps[i].0] == ps[i].1
  {
    if i < |ps| - 1 {
      var pre := ps[..|ps| - 1];
      assert pre[i] == ps[i];
      assert forall j :: i < j < |pre| ==> pre[j] == ps[j];
      ToMapLast(pre, i);
    }
  }

  /** A data row as a record, or the exception its reading throws. */
  datatype Row = Row(record: map<string, string>) | RowFails(e: Thrown)

  /**
   * A data row: split at commas, each cell trimmed and paired with the header
   * at its position. A row with more cells than there are headers throws
   * `IndexOutOfBoundsException`; fewer cells leave the last headers out.
   */
  function RecordOf(headers: seq<string>, line: string): (r: Row)
    ensures r.RowFails? <==> |Split(line, ',')| > |headers|
    ensures r.RowFails? ==> r.e == IndexOutOfBounds
  {
    var cells := Split(line, ',');
    if |cells| > |headers| then RowFails(IndexOutOfBounds)
    else Row(ToMap(Cells(headers, cells)))
  }

  /** Each cell trimmed and paired with the header at its position. */
  function Cells(headers: seq<string>, cells: seq<string>): (ps: seq<(string, string)>)
    requires |cells| <= |headers|
    ensures |ps| == |cells|
  {
    seq(|cells|, i requires 0 <= i < |cells| => (headers[i], Trim(cells[i])))
  }

  /** The record has a key exactly for the headers that got a cell. */
  lemma RecordKeys(headers: seq<string>, line: string, k: string)
    requires RecordOf(headers, line).Row?
    ensures k in RecordOf(headers, line).record <==> exists i :: 0 <= i < |Split(line, ',')| && headers[i] == k
  {
    var cells := Split(line, ',');
    var ps := Cells(headers, cells);
    assert RecordOf(headers, line).record == ToMap(ps);
    ToMapKeys(ps, k);
    if k in ToMap(ps) {
      var i :| 0 <= i < |ps| && ps[i].0 == k;
      assert headers[i] == k;
    }
    if exists i :: 0 <= i < |cells| && headers[i] == k {
      var i :| 0 <= i < |cells| && headers[i] == k;
      assert ps[i].0 == k;
    }
  }

  /** Under a header, the record holds its cell trimmed; for a repeated header, the last one's. */
  lemma RecordCell(headers: seq<string>, line: string, i: int)
    requires RecordOf(headers, line).Row?
    requires 0 <= i < |Split(line, ',')| && forall j :: i < j < |Split(line, ',')| ==> headers[j] != headers[i]
    ensures headers[i] in RecordOf(headers, line).record
    ensures RecordOf(headers, line).record[headers[i]] == Trim(Split(line, ',')[i])
  {
    var cells := Split(line, ',');
    var ps := Cells(headers, cells);
    assert forall j :: 0 <= j < |ps| ==> ps[j].0 == headers[j];
    ToMapLast(ps, i);
  }

  /**
   * A row written from cells aligned with distinct headers reads back, under
   * each header, that header's cell.
   */
  lemma RowReadsBack(headers: seq<string>, cells: seq<string>, i: int)
    requires |cells| == |headers| >= 1 && 0 <= i < |cells|
    requires forall a, b :: 0 <= a < b < |headers| ==> headers[a] != headers[b]
    requires forall k :: 0 <= k < |cells| ==> ',' !in cells[k] && Trim(cells[k]) == cells[k]
    ensures var r := RecordOf(headers, Join(cells, ','));
            r.Row? && headers[i] in r.record && r.record[headers[i]] == cells[i]
  {
    JoinSplit(cells, ',');
    RecordCell(headers, Join(cells, ','), i);
  }

  // ---------------------------------------------------------------------------
  // Labels

  /** The proxy labels: `frontend`, `backend`, or `backend` and `server`. */
  function ProxyLabels(px: string, sv: string): (r: seq<(string, string)>)
    ensures 1 <= |r| <= 2 && r[0].1 == px
    ensures r[0].0 == "frontend" <==> sv == "FRONTEND"
    ensures r[0].0 != "frontend" ==> r[0].0 == "backend"
    ensures |r| == 2 <==> sv != "FRONTEND" && sv != "BACKEND"
    ensures |r| == 2 ==> r[1] == ("server", sv)
  {
    if sv == "FRONTEND" then [("frontend", px)]
    else if sv == "BACKEND" then [("backend", px)]
    else [("backend", px), ("server", sv)]
  }

  /**
   * The labels of a row's metrics; `None` for a row without `pxname` or
   * `svname`, which is skipped. Only the newest collector adds the
   * configured labels.
   */
  function Labels(record: map<string, string>, instance: string, configLabels: seq<(string, string)>): (r: Option<seq<(string, string)>>)
    ensures r.None? <==> "pxname" !in record || "svname" !in record
    ensures r.Some? ==>
              var p := ProxyLabels(record["pxname"], record["svname"]);
              && |r.value| == |p| + |configLabels| + 1
              && r.value[..|p|] == p
              && r.value[|p|..|p| + |configLabels|] == configLabels
              && r.value[|r.value| - 1] == ("instance", instance)
  {
    if "pxname" !in record || "svname" !in record then None
    else
      var p := ProxyLabels(record["pxname"], record["svname"]);
      var r := p + configLabels + [("instance", instance)];
      assert r[..|p|] == p;
      assert r[|p|..|p| + |configLabels|] == configLabels;
      Some(r)
  }

  // ---------------------------------------------------------------------------
  // Metrics of one row

  /** A known column: the CSV key, the metric type and the description. */
  datatype Column = Column(key: string, metricType: Metrics.MetricType, description: string)

  const GaugeColumns: seq<Column> := [
    Column("qtime", Metrics.Gauge, "queue time ms"),
    Column("ctime", Metrics.Gauge, "connect time ms"),
    Column("rtime", Metrics.Gauge, "response time ms"),
    Column("ttime", Metrics.Gauge, "total time ms"),
    Column("scur", Metrics.Gauge, "sessions current"),
    Column("smax", Metrics.Gauge, "sessions maximum"),
    Column("slim", Metrics.Gauge, "session limit"),
    Column("rate", Metrics.Gauge, "session rate current"),
    Column("rate_max", Metrics.Gauge, "session rate maximum"),
    Column("rate_lim", Metrics.Gauge, "session rate limit")
  ]

  /** `hrsp_<i>xx` for the response class `i` in 1..5. */
  function ResponseColumn(i: int): Column
    requires 1 <= i <= 5
  {
    var d := [('0' as int + i) as char];
    Column("hrsp_" + d + "xx", Metrics.Counter, d + "xx responses")
  }

  /** The `for (i in 1..5)` loop of `writeMetrics`. */
  const ResponseColumns: seq<Column> := [ResponseColumn(1), ResponseColumn(2), ResponseColumn(3), ResponseColumn(4), ResponseColumn(5)]

  /** The columns in the order they are written: ten gauges, then six counters. */
  const Columns: seq<Column> :=
    GaugeColumns + ResponseColumns + [Column("hrsp_other", Metrics.Counter, "other responses")]

  /** No gauge is written after a counter. */
  predicate GaugesFirst(cols: seq<Column>)
  {
    forall i, j :: 0 <= i < j < |cols| && cols[i].metricType == Metrics.Counter ==> cols[j].metricType == Metrics.Counter
  }

  lemma ColumnsGaugesFirst()
    ensures |Columns| == 16 && GaugesFirst(Columns)
    ensures forall i :: 0 <= i < |Columns| ==> (Columns[i].metricType == Metrics.Gauge <==> i < 10)
  {
    var counters := ResponseColumns + [Column("hrsp_other", Metrics.Counter, "other responses")];
    assert Columns == GaugeColumns + counters;
    assert forall i :: 0 <= i < |counters| ==> counters[i].metricType == Metrics.Counter;
    assert forall i :: 0 <= i < 10 ==> GaugeColumns[i].metricType == Metrics.Gauge;
  }

  /** What one call does for the writer. */
  datatype Emitted = Skip | Emit(metric: Metrics.MetricValue) | Fail(e: Thrown)

  /** `metricValueIfNonNull`: an absent or blank cell writes nothing; any other must be a 64-bit decimal. */
  function WriteOne(c: Column, record: map<string, string>, fields: seq<(string, string)>): (r: Emitted)
    ensures r.Skip? <==> c.key !in record || IsBlank(record[c.key])
    ensures r.Fail? <==> c.key in record && !IsBlank(record[c.key]) && ParseLong(record[c.key]).None?
    ensures r.Fail? ==> r.e == NumberFormat
    ensures r.Emit? ==> var m := r.metric;
              && m.name == "hap_" + c.key && m.metricType == c.metricType && m.description == Some(c.description)
              && m.ts.None? && m.fields == fields
              && m.value.Long? && Some(m.value.n) == ParseLong(record[c.key])
  {
    if c.key !in record || IsBlank(record[c.key]) then Skip
    else match ParseLong(record[c.key])
      case None => Fail(NumberFormat)
      case Some(n) => Emit(Metrics.MetricValue("hap_" + c.key, Metrics.Long(n), c.metricType, Some(c.description), None, fields))
  }

  /** `writeMetrics` over `cols`: what is written, and the exception that stopped it. */
  function WriteAll(cols: seq<Column>, record: map<string, string>, fields: seq<(string, string)>): (seq<Metrics.MetricValue>, Option<Thrown>)
  {
    if cols == [] then ([], None)
    else
      var r := WriteAll(cols[..|cols| - 1], record, fields);
      if r.1.Some? then r
      else match WriteOne(cols[|cols| - 1], record, fields)
        case Skip => r
        case Emit(m) => (r.0 + [m], None)
        case Fail(e) => (r.0, Some(e))
  }

  /** `m` is what some column of `cols` writes for the record. */
  predicate FromColumn(cols: seq<Column>, record: map<string, string>, fields: seq<(string, string)>, m: Metrics.MetricValue)
  {
    exists k :: 0 <= k < |cols| && WriteOne(cols[k], record, fields) == Emit(m)
  }

  lemma FromPrefix(cols: seq<Column>, record: map<string, string>, fields: seq<(string, string)>, m: Metrics.MetricValue)
    requires cols != [] && FromColumn(cols[..|cols| - 1], record, fields, m)
    ensures FromColumn(cols, record, fields, m)
  {
    var pre := cols[..|cols| - 1];
    var k :| 0 <= k < |pre| && WriteOne(pre[k], record, fields) == Emit(m);
    assert cols[k] == pre[k];
  }

  /** Every metric written comes from a column whose cell parses to its value, with the row's labels. */
  lemma {:induction false} WriteAllSound(cols: seq<Column>, record: map<string, string>, fields: seq<(string, string)>)
    ensures forall i :: 0 <= i < |WriteAll(cols, record, fields).0| ==> FromColumn(cols, record, fields, WriteAll(cols, record, fields).0[i])
  {
    if cols != [] {
      var pre := cols[..|cols| - 1];
      WriteAllSound(pre, record, fields);
      var w0 := WriteAll(pre, record, fields).0;
      var w := WriteAll(cols, record, fields).0;
      forall i | 0 <= i < |w| ensures FromColumn(cols, record, fields, w[i]) {
        if i < |w0| {
          assert w[i] == w0[i];
          assert FromColumn(pre, record, fields, w0[i]);
          FromPrefix(cols, record, fields, w0[i]);
        } else {
          assert WriteOne(cols[|cols| - 1], record, fields) == Emit(w[i]);
        }
      }
    }
  }

  /** Without an exception, every column with a non-blank cell is written. */
  lemma {:induction false} WriteAllComplete(cols: seq<Column>, record: map<string, string>, fields: seq<(string, string)>, k: int)
    requires 0 <= k < |cols| && cols[k].key in record && !IsBlank(record[cols[k].key])
    requires WriteAll(cols, record, fields).1.None?
    ensures WriteOne(cols[k], record, fields).Emit? && WriteOne(cols[k], record, fields).metric in WriteAll(cols, record, fields).0
  {
    var pre := cols[..|cols| - 1];
    if k < |cols| - 1 {
      assert pre[k] == cols[k];
      WriteAllComplete(pre, record, fields, k);
    }
  }

  /** An exception is a `NumberFormatException` from a non-blank cell that is not a 64-bit decimal. */
  lemma {:induction false} WriteAllFails(cols: seq<Column>, record: map<string, string>, fields: seq<(string, string)>)
    requires WriteAll(cols, record, fields).1.Some?
    ensures WriteAll(cols, record, fields).1 == Some(NumberFormat)
    ensures exists k :: 0 <= k < |cols| && WriteOne(cols[k], record, fields).Fail?
  {
    var pre := cols[..|cols| - 1];
    if WriteAll(pre, record, fields).1.Some? {
      WriteAllFails(pre, record, fields);
      var k :| 0 <= k < |pre| && WriteOne(pre[k], record, fields).Fail?;
      assert cols[k] == pre[k];
    } else {
      assert WriteOne(cols[|cols| - 1], record, fields).Fail?;
    }
  }

  /** When every column holds a 64-bit decimal, all of them are written, one each, in column order. */
  lemma {:induction false} WriteAllInOrder(cols: seq<Column>, record: map<string, string>, fields: seq<(string, string)>)
    requires forall k :: 0 <= k < |cols| ==> cols[k].key in record && !IsBlank(record[cols[k].key]) && ParseLong(record[cols[k].key]).Some?
    ensures WriteAll(cols, record, fields).1.None? && InOrder(cols, WriteAll(cols, record, fields).0)
  {
    if cols != [] {
      var pre := cols[..|cols| - 1];
      var c := cols[|cols| - 1];
      assert forall k :: 0 <= k < |pre| ==> pre[k] == cols[k];
      WriteAllInOrder(pre, record, fields);
      var w0 := WriteAll(pre, record, fields).0;
      var e := WriteOne(c, record, fields);
      assert e.Emit?;
      var w := w0 + [e.metric];
      assert WriteAll(cols, record, fields) == (w, None);
      forall k | 0 <= k < |cols| ensures w[k].name == "hap_" + cols[k].key && w[k].metricType == cols[k].metricType {
        if k < |pre| {
          assert w[k] == w0[k];
        }
      }
    }
  }

  /** One metric per column, in column order, named and typed after it. */
  predicate InOrder(cols: seq<Column>, w: seq<Metrics.MetricValue>)
  {
    |w| == |cols| && forall k :: 0 <= k < |cols| ==> w[k].name == "hap_" + cols[k].key && w[k].metricType == cols[k].metricType
  }

  predicate GaugesFirstWritten(w: seq<Metrics.MetricValue>)
  {
    forall i, j :: 0 <= i < j < |w| && w[i].metricType == Metrics.Counter ==> w[j].metricType == Metrics.Counter
  }

  /** The written metrics keep the column order's gauges-before-counters. */
  lemma {:induction false} WriteAllGaugesFirst(cols: seq<Column>, record: map<string, string>, fields: seq<(string, string)>)
    requires GaugesFirst(cols)
    ensures GaugesFirstWritten(WriteAll(cols, record, fields).0)
  {
    if cols != [] {
      var pre := cols[..|cols| - 1];
      assert GaugesFirst(pre) by {
        assert forall i :: 0 <= i < |pre| ==> pre[i] == cols[i];
      }
      WriteAllGaugesFirst(pre, record, fields);
      var w0 := WriteAll(pre, record, fields).0;
      var w := WriteAll(cols, record, fields).0;
      if |w| > |w0| {
        var last := cols[|cols| - 1];
        assert w == w0 + [w[|w| - 1]] && w[|w| - 1].metricType == last.metricType;
        if last.metricType != Metrics.Counter {
          WriteAllSound(pre, record, fields);
          forall i | 0 <= i < |w0| ensures w0[i].metricType != Metrics.Counter {
            assert FromColumn(pre, record, fields, w0[i]);
            var k :| 0 <= k < |pre| && WriteOne(pre[k], record, fields) == Emit(w0[i]);
            assert pre[k] == cols[k];
          }
        }
        forall i, j | 0 <= i < j < |w| && w[i].metricType == Metrics.Counter ensures w[j].metricType == Metrics.Counter {
          if j < |w0| {
            assert w[i] == w0[i] && w[j] == w0[j];
          } else {
            assert w[i] == w0[i];
          }
        }
      }
    }
  }

  /** `writeMetrics`: the columns in order, stopping at the first exception. */
  method WriteMetrics(cols: seq<Column>, record: map<string, string>, fields: seq<(string, string)>) returns (written: seq<Metrics.MetricValue>, error: Option<Thrown>)
    ensures (written, error) == WriteAll(cols, record, fields)
  {
    written := [];
    for i := 0 to |cols|
      invariant WriteAll(cols[..i], record, fields) == (written, None)
    {
      assert cols[..i + 1][..i] == cols[..i];
      var c := cols[i];
      if c.key in record && !IsBlank(record[c.key]) {
        var n := ParseLong(record[c.key]);
        if n.None? {
          WriteAllStopped(cols, record, fields, i + 1);
          return written, Some(NumberFormat);
        }
        written := written + [Metrics.MetricValue("hap_" + c.key, Metrics.Long(n.value), c.metricType, Some(c.description), None, fields)];
      }
    }
    assert cols[..|cols|] == cols;
    error := None;
  }

  lemma {:induction false} WriteAllStopped(cols: seq<Column>, record: map<string, string>, fields: seq<(string, string)>, k: nat)
    requires k <= |cols| && WriteAll(cols[..k], record, fields).1.Some?
    ensures WriteAll(cols, record, fields) == WriteAll(cols[..k], record, fields)
  {
    if k < |cols| {
      var pre := cols[..|cols| - 1];
      assert pre[..k] == cols[..k];
      WriteAllStopped(pre, record, fields, k);
    } else {
      assert cols[..k] == cols;
    }
  }

  // ---------------------------------------------------------------------------
  // export

  /**
   * One data row: the metrics it writes and the exception it ends in. A row
   * without `pxname` or `svname` writes nothing.
   */
  function RowOf(cols: seq<Column>, headers: seq<string>, line: string, instance: string, configLabels: seq<(string, string)>): (seq<Metrics.MetricValue>, Option<Thrown>)
  {
    match RecordOf(headers, line)
    case RowFails(e) => ([], Some(e))
    case Row(record) =>
      match Labels(record, instance, configLabels)
      case None => ([], None)
      case Some(fields) => WriteAll(cols, record, fields)
  }

  /**
   * The data rows, up to an empty line or the end of the input: the metrics
   * written and the exception that stopped the reading.
   */
  function Rows(cols: seq<Column>, headers: seq<string>, lines: seq<string>, instance: string, configLabels: seq<(string, string)>): (seq<Metrics.MetricValue>, Option<Thrown>)
  {
    if lines == [] || lines[0] == "" then ([], None)
    else
      var w := RowOf(cols, headers, lines[0], instance, configLabels);
      if w.1.Some? then w
      else
        var rest := Rows(cols, headers, lines[1..], instance, configLabels);
        (w.0 + rest.0, rest.1)
  }

  /** Nothing after the first empty line is read. */
  lemma {:induction false} RowsStopAtEmptyLine(cols: seq<Column>, headers: seq<string>, pre: seq<string>, post: seq<string>, instance: string, configLabels: seq<(string, string)>)
    ensures Rows(cols, headers, pre + [""] + post, instance, configLabels) == Rows(cols, headers, pre + [""], instance, configLabels)
  {
    if pre != [] {
      TailOfAppend(pre, [""]);
      TailOfAppend(pre + [""], post);
      RowsStopAtEmptyLine(cols, headers, pre[1..], post, instance, configLabels);
    }
  }

  /** `m` carries a proxy label first and `instance` last. */
  predicate Labelled(m: Metrics.MetricValue, instance: string)
  {
    |m.fields| >= 2 && m.fields[|m.fields| - 1] == ("instance", instance) && m.fields[0].0 in ["frontend", "backend"]
  }

  predicate AllLabelled(w: seq<Metrics.MetricValue>, instance: string)
  {
    forall i :: 0 <= i < |w| ==> Labelled(w[i], instance)
  }

  lemma LabelledAppend(a: seq<Metrics.MetricValue>, b: seq<Metrics.MetricValue>, instance: string)
    requires AllLabelled(a, instance) && AllLabelled(b, instance)
    ensures AllLabelled(a + b, instance)
  {
    forall i | 0 <= i < |a + b| ensures Labelled((a + b)[i], instance) {
      if i >= |a| {
        assert (a + b)[i] == b[i - |a|];
      }
    }
  }

  /** Every metric written carries its row's proxy label first and `instance` last. */
  lemma {:induction false} RowsLabelled(cols: seq<Column>, headers: seq<string>, lines: seq<string>, instance: string, configLabels: seq<(string, string)>)
    ensures AllLabelled(Rows(cols, headers, lines, instance, configLabels).0, instance)
  {
    if lines != [] && lines[0] != "" {
      RowsLabelled(cols, headers, lines[1..], instance, configLabels);
      var w := RowOf(cols, headers, lines[0], instance, configLabels);
      RowLabelled(cols, headers, lines[0], instance, configLabels);
      if w.1.None? {
        var rest := Rows(cols, headers, lines[1..], instance, configLabels).0;
        var all := Rows(cols, headers, lines, instance, configLabels).0;
        assert all == w.0 + rest;
        LabelledAppend(w.0, rest, instance);
      }
    }
  }

  /** The metrics of one row all carry that row's labels. */
  lemma RowLabelled(cols: seq<Column>, headers: seq<string>, line: string, instance: string, configLabels: seq<(string, string)>)
    ensures AllLabelled(RowOf(cols, headers, line, instance, configLabels).0, instance)
  {
    var row := RecordOf(headers, line);
    if row.Row? && Labels(row.record, instance, configLabels).Some? {
      var record := row.record;
      var fields := Labels(record, instance, configLabels).value;
      var p := ProxyLabels(record["pxname"], record["svname"]);
      assert fields[0] == p[0];
      WriteAllSound(cols, record, fields);
      var w := WriteAll(cols, record, fields).0;
      forall i | 0 <= i < |w| ensures Labelled(w[i], instance) {
        assert FromColumn(cols, record, fields, w[i]);
        var k :| 0 <= k < |cols| && WriteOne(cols[k], record, fields) == Emit(w[i]);
        assert w[i].fields == fields;
      }
    }
  }

  /** One data row of `export`'s read loop. */
  method ExportRow(cols: seq<Column>, headers: seq<string>, line: string, instance: string, configLabels: seq<(string, string)>)
      returns (written: seq<Metrics.MetricValue>, error: Option<Thrown>)
    ensures (written, error) == RowOf(cols, headers, line, instance, configLabels)
  {
    var row := RecordOf(headers, line);
    if row.RowFails? {
      return [], Some(row.e);
    }
    var record := row.record;
    if "pxname" !in record || "svname" !in record {
      return [], None;
    }
    var fields := ProxyLabels(record["pxname"], record["svname"]) + configLabels + [("instance", instance)];
    assert Labels(record, instance, configLabels) == Some(fields);
    written, error := WriteMetrics(cols, record, fields);
  }

  /** `Rows` from index `i` on, one line at a time. */
  lemma RowsAt(cols: seq<Column>, headers: seq<string>, lines: seq<string>, i: nat, instance: string, configLabels: seq<(string, string)>)
    requires i < |lines|
    ensures Rows(cols, headers, lines[i..], instance, configLabels) ==
            if lines[i] == "" then ([], None)
            else
              var w := RowOf(cols, headers, lines[i], instance, configLabels);
              var rest := Rows(cols, headers, lines[i + 1..], instance, configLabels);
              if w.1.Some? then w else (w.0 + rest.0, rest.1)
  {
    assert lines[i..][1..] == lines[i + 1..];
  }

  /** The read loop of `export` over the data lines. */
  method ExportRows(cols: seq<Column>, headers: seq<string>, lines: seq<string>, instance: string, configLabels: seq<(string, string)>)
      returns (written: seq<Metrics.MetricValue>, error: Option<Thrown>)
    ensures (written, error) == Rows(cols, headers, lines, instance, configLabels)
  {
    ghost var all := Rows(cols, headers, lines, instance, configLabels);
    written := [];
    var i := 0;
    assert lines[0..] == lines;
    assert all.0 == written + all.0;
    while i < |lines|
      invariant 0 <= i <= |lines|
      invariant var rest := Rows(cols, headers, lines[i..], instance, configLabels);
                all == (written + rest.0, rest.1)
    {
      ghost var rest := Rows(cols, headers, lines[i..], instance, configLabels);
      ghost var next := Rows(cols, headers, lines[i + 1..], instance, configLabels);
      RowsAt(cols, headers, lines, i, instance, configLabels);
      if lines[i] == "" {
        assert written + rest.0 == written;
        return written, None;
      }
      var w, e := ExportRow(cols, headers, lines[i], instance, configLabels);
      if e.Some? {
        assert rest == (w, e);
        return written + w, e;
      }
      AppendAssoc(written, w, next.0);
      written := written + w;
      i := i + 1;
    }
    assert written + Rows(cols, headers, lines[i..], instance, configLabels).0 == written;
    error := None;
  }

  /**
   * `export` once connected: the status check of the newest collector, the
   * header line, then the rows. A missing header line throws
   * `ClosedReceiveChannelException` in the newest collector (a `receive` on
   * a channel that ended) and `IllegalStateException` in the older ones.
   */
  function ExportOf(v: Variant, status: int, lines: seq<string>, instance: string, configLabels: seq<(string, string)>): (r: (seq<Metrics.MetricValue>, Option<Thrown>))
    ensures v == Collector && status != 200 ==> r == ([], Some(IllegalState))
    ensures lines == [] ==> r.0 == [] && r.1.Some?
  {
    if v == Collector && status != 200 then ([], Some(IllegalState))
    else if lines == [] then ([], Some(if v == Collector then ClosedChannel else IllegalState))
    else Rows(Columns, Headers(lines[0]), lines[1..], instance, if v == Collector then configLabels else [])
  }

  /** The older copies ignore the configured labels; the newest puts them between the proxy labels and `instance`. */
  lemma OlderIgnoreConfigLabels(v: Variant, status: int, lines: seq<string>, instance: string, configLabels: seq<(string, string)>)
    requires v != Collector
    ensures ExportOf(v, status, lines, instance, configLabels) == ExportOf(v, status, lines, instance, [])
  {
  }

  method Export(v: Variant, status: int, lines: seq<string>, instance: string, configLabels: seq<(string, string)>)
      returns (written: seq<Metrics.MetricValue>, error: Option<Thrown>)
    ensures (written, error) == ExportOf(v, status, lines, instance, configLabels)
  {
    if v == Collector && status != 200 {
      return [], Some(IllegalState);
    }
    if lines == [] {
      return [], Some(if v == Collector then ClosedChannel else IllegalState);
    }
    var headers := Headers(lines[0]);
    written, error := ExportRows(Columns, headers, lines[1..], instance, if v == Collector then configLabels else []);
  }
}
