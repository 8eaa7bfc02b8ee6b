/**
 * `services/NetRecon/prometheus_exporter.py`: the Prometheus text exposition
 * of a metrics snapshot. Label values are escaped so that a reader of the
 * format gets them back, and the output is one line per sample, each family
 * headed by its HELP and TYPE lines, with a final newline.
 */
module PrometheusExport {
  import opened Wrappers
  import opened Text
  import opened Numerals

  // ---------------------------------------------------------------------
  // `_sanitize_label_value`
  // ---------------------------------------------------------------------

  /** `s.replace(c, r)` for a one-character pattern. */
  function ReplaceChar(s: string, c: char, r: string): string {
    if s == [] then []
    else (if s[0] == c then r else [s[0]]) + ReplaceChar(s[1..], c, r)
  }

  lemma {:induction false} ReplaceCharConcat(a: string, b: string, c: char, r: string)
    ensures ReplaceChar(a + b, c, r) == ReplaceChar(a, c, r) + ReplaceChar(b, c, r)
  {
    if a == [] {
      assert a + b == b;
    } else {
      assert (a + b)[0] == a[0] && (a + b)[1..] == a[1..] + b;
      ReplaceCharConcat(a[1..], b, c, r);
    }
  }

  /** Backslashes doubled first, then newlines written `\n`, then quotes written `\"`. */
  function Sanitize(value: string): string {
    ReplaceChar(ReplaceChar(ReplaceChar(value, '\\', "\\\\"), '\n', "\\n"), '"', "\\\"")
  }

  /** The escape of one character of a label value. */
  function EscapeChar(c: char): (e: string)
    ensures '\n' !in e
    ensures c == '\\' || c == '\n' || c == '"' ==> |e| == 2 && e[0] == '\\'
    ensures !(c == '\\' || c == '\n' || c == '"') ==> e == [c]
  {
    if c == '\\' then "\\\\" else if c == '\n' then "\\n" else if c == '"' then "\\\"" else [c]
  }

  /** Every character escaped on its own. */
  function Escape(value: string): (e: string)
    ensures '\n' !in e
  {
    if value == [] then [] else EscapeChar(value[0]) + Escape(value[1..])
  }

  /** The three replacements, applied to a single character, escape it. */
  lemma SanitizeChar(c: char)
    ensures ReplaceChar(ReplaceChar(ReplaceChar([c], '\\', "\\\\"), '\n', "\\n"), '"', "\\\"") == EscapeChar(c)
  {
    assert [c][1..] == [];
    if c == '\\' {
      assert ReplaceChar([c], '\\', "\\\\") == "\\\\";
      ReplaceCharConcat("\\", "\\", '\n', "\\n");
      ReplaceCharConcat("\\", "\\", '"', "\\\"");
      assert "\\" + "\\" == "\\\\";
    } else if c == '\n' {
      assert ReplaceChar([c], '\\', "\\\\") == [c];
      assert ReplaceChar([c], '\n', "\\n") == "\\n";
      ReplaceCharConcat("\\", "n", '"', "\\\"");
      assert "\\" + "n" == "\\n";
    } else if c == '"' {
      assert ReplaceChar([c], '\\', "\\\\") == [c];
      assert ReplaceChar([c], '\n', "\\n") == [c];
      assert ReplaceChar([c], '"', "\\\"") == "\\\"";
    } else {
      assert ReplaceChar([c], '\\', "\\\\") == [c];
      assert ReplaceChar([c], '\n', "\\n") == [c];
      assert ReplaceChar([c], '"', "\\\"") == [c];
    }
  }

  /**
   * Because backslashes are doubled before the other two replacements insert
   * theirs, the chain of replacements escapes each character independently.
   */
  lemma {:induction false} SanitizeIsEscape(value: string)
    ensures Sanitize(value) == Escape(value)
  {
    if value != [] {
      var c, rest := value[0], value[1..];
      assert value == [c] + rest;
      ReplaceCharConcat([c], rest, '\\', "\\\\");
      var a1, b1 := ReplaceChar([c], '\\', "\\\\"), ReplaceChar(rest, '\\', "\\\\");
      ReplaceCharConcat(a1, b1, '\n', "\\n");
      var a2, b2 := ReplaceChar(a1, '\n', "\\n"), ReplaceChar(b1, '\n', "\\n");
      ReplaceCharConcat(a2, b2, '"', "\\\"");
      SanitizeChar(c);
      SanitizeIsEscape(rest);
    }
  }

  /** A sanitised label value holds no raw newline. */
  lemma SanitizeNoNewline(value: string)
    ensures '\n' !in Sanitize(value)
  {
    SanitizeIsEscape(value);
  }

  /** A value without backslash, newline or quote is left alone. */
  lemma {:induction false} SanitizePlain(value: string)
    requires '\\' !in value && '\n' !in value && '"' !in value
    ensures Sanitize(value) == value
  {
    SanitizeIsEscape(value);
    EscapeOfPlain(value);
  }

  lemma {:induction false} EscapeOfPlain(value: string)
    requires '\\' !in value && '\n' !in value && '"' !in value
    ensures Escape(value) == value
  {
    if value != [] {
      assert value[0] in value;
      assert forall k :: 0 <= k < |value[1..]| ==> value[1..][k] == value[k + 1];
      EscapeOfPlain(value[1..]);
      assert [value[0]] + value[1..] == value;
    }
  }

  /** What a reader of the exposition format gets from a quoted label value. */
  datatype LabelRead = LabelRead(value: string, rest: string)

  /** The character an escape sequence `\e` stands for. */
  function Unescaped(e: char): Option<char> {
    if e == '\\' then Some('\\') else if e == 'n' then Some('\n') else if e == '"' then Some('"') else None
  }

  /**
   * Reads a label value up to its closing quote: `\\`, `\n` and `\"` stand
   * for a backslash, a newline and a quote; a raw newline, an unknown escape
   * or a missing closing quote is an error.
   */
  function ReadLabel(s: string): Option<LabelRead>
    decreases |s|
  {
    if s == [] || s[0] == '\n' then None
    else if s[0] == '"' then Some(LabelRead([], s[1..]))
    else if s[0] == '\\' then
      if |s| < 2 then None
      else
        var c := Unescaped(s[1]);
        var tail := ReadLabel(s[2..]);
        if c.Some? && tail.Some? then Some(LabelRead([c.value] + tail.value.value, tail.value.rest)) else None
    else
      var tail := ReadLabel(s[1..]);
      if tail.Some? then Some(LabelRead([s[0]] + tail.value.value, tail.value.rest)) else None
  }

  /** An escaped value followed by its closing quote reads back as the value. */
  lemma {:induction false} ReadLabelOfEscape(value: string, rest: string)
    ensures ReadLabel(Escape(value) + "\"" + rest).Some?
    ensures ReadLabel(Escape(value) + "\"" + rest).value == LabelRead(value, rest)
  {
    var s := Escape(value) + "\"" + rest;
    if value == [] {
      assert s == "\"" + rest;
      assert s[1..] == rest;
    } else {
      var c, v := value[0], value[1..];
      var t := Escape(v) + "\"" + rest;
      ReadLabelOfEscape(v, rest);
      assert s == EscapeChar(c) + t;
      assert [c] + v == value;
      if c == '\\' || c == '\n' || c == '"' {
        assert s[0] == '\\' && s[2..] == t;
        assert Unescaped(s[1]) == Some(c);
      } else {
        assert s[0] == c && s[1..] == t;
      }
    }
  }

  /** `_sanitize_label_value` round trip: the reader recovers the original value. */
  lemma SanitizeRoundTrip(value: string, rest: string)
    ensures ReadLabel(Sanitize(value) + "\"" + rest).Some?
    ensures ReadLabel(Sanitize(value) + "\"" + rest).value == LabelRead(value, rest)
  {
    SanitizeIsEscape(value);
    ReadLabelOfEscape(value, rest);
  }

  // ---------------------------------------------------------------------
  // `format_prometheus_metrics`
  // ---------------------------------------------------------------------

  /** A `by_path` entry; the key may be `None`. */
  datatype PathCount = PathCount(path: Option<string>, count: int)

  /** A `by_status_code` entry. */
  datatype StatusCount = StatusCount(status: int, count: int)

  /**
   * The snapshot dictionary as `.get` reads it, `None` for a missing key or a
   * `None` value; the two maps are their entries in iteration order.
   */
  datatype ExportSnapshot = ExportSnapshot(
    totalRequests: Option<int>,
    totalSuccess: Option<int>,
    totalErrors: Option<int>,
    averageLatencyMs: Option<real>,
    byPath: Option<seq<PathCount>>,
    byStatusCode: Option<seq<StatusCount>>,
    lastRequestTimestamp: Option<real>)

  /** A metric family: its name, its HELP text and its TYPE. */
  datatype MetricFamily = MetricFamily(name: string, help: string, kind: string)

  const RequestsTotal := MetricFamily("netrecon_requests_total", "Total number of HTTP requests handled.", "counter")
  const SuccessTotal := MetricFamily("netrecon_requests_success_total", "Total number of successful HTTP requests.", "counter")
  const ErrorTotal := MetricFamily("netrecon_requests_error_total", "Total number of error HTTP responses.", "counter")
  const LatencyAverage := MetricFamily("netrecon_request_latency_ms_average", "Average request latency in milliseconds.", "gauge")
  const LastTimestamp := MetricFamily("netrecon_last_request_timestamp_seconds", "Unix timestamp of the last handled request.", "gauge")
  const ByPath := MetricFamily("netrecon_requests_by_path_total", "Total requests grouped by HTTP path.", "counter")
  const ByStatus := MetricFamily("netrecon_requests_by_status_total", "Total requests grouped by HTTP status code.", "counter")

  /** The five unlabelled families, in the order they are written. */
  const ScalarFamilies := [RequestsTotal, SuccessTotal, ErrorTotal, LatencyAverage, LastTimestamp]

  function HelpLine(f: MetricFamily): string { "# HELP " + f.name + " " + f.help }

  function TypeLine(f: MetricFamily): string { "# TYPE " + f.name + " " + f.kind }

  function Sample(f: MetricFamily, value: string): string { f.name + " " + value }

  /** `int(x)` for a float: `x` truncated toward zero. */
  function TruncateReal(x: real): (t: int)
    ensures x >= 0.0 ==> t as real <= x < t as real + 1.0
    ensures x < 0.0 ==> t as real - 1.0 < x <= t as real
  {
    if x >= 0.0 then x.Floor else -((-x).Floor)
  }

  /** The HELP, TYPE and sample line of family `f` whose sample is `value`. */
  function Family(f: MetricFamily, value: string): seq<string> {
    [HelpLine(f), TypeLine(f), Sample(f, value)]
  }

  /**
   * The samples of the five unlabelled families, a missing or falsy field
   * read as zero; `renderFloat` is Python's rendering of the average latency
   * and the timestamp is truncated to an integer.
   */
  function ScalarValues(snapshot: ExportSnapshot, renderFloat: real -> string): seq<string> {
    [ IntToDecimal(snapshot.totalRequests.GetOr(0)),
      IntToDecimal(snapshot.totalSuccess.GetOr(0)),
      IntToDecimal(snapshot.totalErrors.GetOr(0)),
      renderFloat(snapshot.averageLatencyMs.GetOr(0.0)),
      IntToDecimal(TruncateReal(snapshot.lastRequestTimestamp.GetOr(0.0))) ]
  }

  /** The fifteen lines of the unlabelled families, in their fixed order. */
  function ScalarLines(snapshot: ExportSnapshot, renderFloat: real -> string): seq<string> {
    var values := ScalarValues(snapshot, renderFloat);
    Family(RequestsTotal, values[0]) + Family(SuccessTotal, values[1]) + Family(ErrorTotal, values[2])
      + Family(LatencyAverage, values[3]) + Family(LastTimestamp, values[4])
  }

  /** The opening of a labelled sample, up to the quote that opens the label value. */
  function LabelPrefix(name: string, labelName: string): string {
    name + "{" + labelName + "=\""
  }

  /** A sample with one label: the value sanitised and quoted, then the sample value. */
  function LabelledSample(name: string, labelName: string, value: string, sample: string): string {
    LabelPrefix(name, labelName) + Sanitize(value) + "\"" + "} " + sample
  }

  /**
   * A reader of a labelled sample gets the label value back, followed by the
   * closing brace and the sample value.
   */
  lemma LabelledSampleReadsBack(name: string, labelName: string, value: string, sample: string)
    ensures var line, prefix := LabelledSample(name, labelName, value, sample), LabelPrefix(name, labelName);
      && StartsWith(line, prefix)
      && ReadLabel(line[|prefix|..]).Some?
      && ReadLabel(line[|prefix|..]).value == LabelRead(value, "} " + sample)
  {
    var prefix, rest := LabelPrefix(name, labelName), "} " + sample;
    var body := Sanitize(value) + "\"" + rest;
    var line := LabelledSample(name, labelName, value, sample);
    assert line == prefix + body;
    assert line[..|prefix|] == prefix;
    assert line[|prefix|..] == body;
    SanitizeRoundTrip(value, rest);
  }

  /** The labelled sample of a path. */
  function PathLine(path: string, count: int): string {
    LabelledSample(ByPath.name, "path", path, IntToDecimal(count))
  }

  /** The labelled sample of a status code. */
  function StatusLine(status: int, count: int): string {
    LabelledSample(ByStatus.name, "status", IntToDecimal(status), IntToDecimal(count))
  }

  /** The status label of a status sample reads back as the status code. */
  lemma StatusLineReadsBack(status: int, count: int)
    ensures var line, prefix := StatusLine(status, count), LabelPrefix(ByStatus.name, "status");
      && StartsWith(line, prefix)
      && ReadLabel(line[|prefix|..]).Some?
      && ReadLabel(line[|prefix|..]).value.rest == "} " + IntToDecimal(count)
      && ParseInt(ReadLabel(line[|prefix|..]).value.value).Some?
      && ParseInt(ReadLabel(line[|prefix|..]).value.value).value == status
  {
    LabelledSampleReadsBack(ByStatus.name, "status", IntToDecimal(status), IntToDecimal(count));
    ParseIntRoundTrip(status);
  }

  /** The line of one `by_path` entry: none for a `None` path. */
  function PathEntryLines(e: PathCount): seq<string> {
    if e.path.Some? then [PathLine(e.path.value, e.count)] else []
  }

  /** The entries whose path is not `None`, in order. */
  function WithoutNoneKeys(entries: seq<PathCount>): (kept: seq<PathCount>)
    ensures forall i :: 0 <= i < |kept| ==> kept[i].path.Some?
    ensures |kept| <= |entries|
  {
    if entries == [] then []
    else
      var last := entries[|entries| - 1];
      WithoutNoneKeys(entries[..|entries| - 1]) + (if last.path.Some? then [last] else [])
  }

  /**
   * One line per entry whose path is not `None`, in iteration order: the
   * `None` keys are skipped and every other entry gives its labelled sample.
   */
  function PathLines(entries: seq<PathCount>): (lines: seq<string>)
    ensures var kept := WithoutNoneKeys(entries);
      && |lines| == |kept|
      && forall i :: 0 <= i < |kept| ==> lines[i] == PathLine(kept[i].path.value, kept[i].count)
  {
    if entries == [] then []
    else PathLines(entries[..|entries| - 1]) + PathEntryLines(entries[|entries| - 1])
  }

  /** One line per element, in order. */
  function MapLines<T>(entries: seq<T>, line: T -> string): (lines: seq<string>)
    ensures |lines| == |entries|
    ensures forall i :: 0 <= i < |entries| ==> lines[i] == line(entries[i])
  {
    if entries == [] then []
    else MapLines(entries[..|entries| - 1], line) + [line(entries[|entries| - 1])]
  }

  /** The line of one `by_status_code` entry. */
  function StatusEntryLine(e: StatusCount): string {
    StatusLine(e.status, e.count)
  }

  /** One line per entry, in iteration order. */
  function StatusLines(entries: seq<StatusCount>): seq<string> {
    MapLines(entries, StatusEntryLine)
  }

  lemma AppendAssoc(a: seq<string>, b: seq<string>, c: seq<string>)
    ensures a + b + c == a + (b + c)
  {
  }

  /** Every line of the exposition before it is joined. */
  function ExpositionLines(snapshot: ExportSnapshot, renderFloat: real -> string): seq<string> {
    ScalarLines(snapshot, renderFloat)
      + [HelpLine(ByPath), TypeLine(ByPath)] + PathLines(snapshot.byPath.GetOr([]))
      + [HelpLine(ByStatus), TypeLine(ByStatus)] + StatusLines(snapshot.byStatusCode.GetOr([]))
  }

  /** The loop over `by_path`: one line appended per entry whose path is not `None`. */
  method AppendPathSamples(head: seq<string>, byPath: seq<PathCount>) returns (lines: seq<string>)
    ensures lines == head + PathLines(byPath)
  {
    lines := head;
    var i := 0;
    while i < |byPath|
      invariant 0 <= i <= |byPath|
      invariant lines == head + PathLines(byPath[..i])
    {
      var entry := byPath[i];
      ghost var done := PathLines(byPath[..i]);
      assert byPath[..i + 1][..i] == byPath[..i];
      assert PathLines(byPath[..i + 1]) == done + PathEntryLines(entry);
      AppendAssoc(head, done, PathEntryLines(entry));
      if entry.path.Some? {
        lines := lines + [PathLine(entry.path.value, entry.count)];
      } else {
        assert lines + PathEntryLines(entry) == lines;
      }
      i := i + 1;
    }
    assert byPath[..|byPath|] == byPath;
  }

  /** The loop over `by_status_code`: one line appended per entry. */
  method AppendStatusSamples(head: seq<string>, byStatus: seq<StatusCount>) returns (lines: seq<string>)
    ensures lines == head + StatusLines(byStatus)
  {
    lines := head;
    var j := 0;
    while j < |byStatus|
      invariant 0 <= j <= |byStatus|
      invariant lines == head + StatusLines(byStatus[..j])
    {
      var entry := byStatus[j];
      ghost var done := StatusLines(byStatus[..j]);
      assert byStatus[..j + 1][..j] == byStatus[..j];
      assert StatusLines(byStatus[..j + 1]) == done + [StatusEntryLine(entry)];
      AppendAssoc(head, done, [StatusEntryLine(entry)]);
      lines := lines + [StatusLine(entry.status, entry.count)];
      j := j + 1;
    }
    assert byStatus[..|byStatus|] == byStatus;
  }

  /**
   * `format_prometheus_metrics(snapshot)`: the lines appended in order, the
   * two maps walked entry by entry, joined by newlines with one more at the end.
   */
  method FormatPrometheusMetrics(snapshot: ExportSnapshot, renderFloat: real -> string) returns (text: string)
    ensures text == Join(ExpositionLines(snapshot, renderFloat), '\n') + "\n"
  {
    var lines := ScalarLines(snapshot, renderFloat);
    lines := lines + [HelpLine(ByPath), TypeLine(ByPath)];
    lines := AppendPathSamples(lines, snapshot.byPath.GetOr([]));
    lines := lines + [HelpLine(ByStatus), TypeLine(ByStatus)];
    lines := AppendStatusSamples(lines, snapshot.byStatusCode.GetOr([]));
    assert lines == ExpositionLines(snapshot, renderFloat);
    text := Join(lines, '\n') + "\n";
  }

  /** The number of lines: fifteen scalar lines, four headers, and one per kept path and per status. */
  lemma ExpositionLineCount(snapshot: ExportSnapshot, renderFloat: real -> string)
    ensures |ExpositionLines(snapshot, renderFloat)| ==
      19 + |WithoutNoneKeys(snapshot.byPath.GetOr([]))| + |snapshot.byStatusCode.GetOr([])|
  {
  }

  /** The timestamp sample carries the integer part of the timestamp, zero when it is missing. */
  lemma TimestampLine(snapshot: ExportSnapshot, renderFloat: real -> string)
    ensures var line := ExpositionLines(snapshot, renderFloat)[14];
      var prefix := LastTimestamp.name + " ";
      && StartsWith(line, prefix)
      && ParseInt(line[|prefix|..]) == Some(TruncateReal(snapshot.lastRequestTimestamp.GetOr(0.0)))
  {
    var t := TruncateReal(snapshot.lastRequestTimestamp.GetOr(0.0));
    var prefix := LastTimestamp.name + " ";
    var line := Sample(LastTimestamp, IntToDecimal(t));
    assert ScalarValues(snapshot, renderFloat)[4] == IntToDecimal(t);
    assert ScalarLines(snapshot, renderFloat)[14] == line;
    assert ExpositionLines(snapshot, renderFloat)[14] == line;
    assert line[..|prefix|] == prefix;
    assert line[|prefix|..] == IntToDecimal(t);
    ParseIntRoundTrip(t);
  }
}
