/** The metrics page and its reader: observability/metrics.py renders it,
    diagnostics/metrics_parser.py reads it back. */
module MetricsText {
  import opened Basics
  import opened Decimals
  import opened Text
  import opened TextLines

  datatype HostStats = HostStats(completionsTotal: int, latencyAvg: string, promptAvg: string, promptMin: int, promptMax: int,
                                 completionAvg: string, completionMin: int, completionMax: int)

  /** What a page shows; floating-point numbers appear as their text. Each map goes with the order
      its hosts are listed in. */
  datatype Snapshot = Snapshot(availability: string, p95: string, failoverRate: Option<string>, queueDepth: nat,
                               saturationHosts: seq<HostId>, saturation: map<HostId, string>,
                               statsHosts: seq<HostId>, stats: map<HostId, HostStats>,
                               usageHosts: seq<HostId>, usage: map<HostId, int>)

  /** What the reader found: one value for each per-host family and host. */
  datatype Parsed = Parsed(queueDepth: Option<int>, p95: Option<string>,
                           wholes: map<(Metric, HostId), int>, averages: map<(Metric, HostId), string>)

  const EMPTY := Parsed(None, None, map[], map[])

  /** Reading of texts that are not plain decimal integers: which ones are numbers, and the whole
      part of those that are. */
  datatype Reader = Reader(isNumber: string -> bool, wholePart: string -> Option<int>)

  datatype Metric = Availability | P95 | FailoverRate | Saturation | QueueDepth
                  | CompletionsTotal | LatencyAvg | PromptAvg | PromptMin | PromptMax
                  | CompletionAvg | CompletionMin | CompletionMax | Usage

  function Name(m: Metric): string {
    match m
    case Availability => "llm_home_lab_availability_ratio"
    case P95 => "llm_home_lab_request_latency_p95_ms"
    case FailoverRate => "llm_home_lab_failover_success_ratio"
    case Saturation => "llm_home_lab_host_saturation_ratio"
    case QueueDepth => "llm_home_lab_queue_depth"
    case CompletionsTotal => "llm_home_lab_host_completions_total"
    case LatencyAvg => "llm_home_lab_host_latency_ms_avg"
    case PromptAvg => "llm_home_lab_host_prompt_tokens_avg"
    case PromptMin => "llm_home_lab_host_prompt_tokens_min"
    case PromptMax => "llm_home_lab_host_prompt_tokens_max"
    case CompletionAvg => "llm_home_lab_host_completion_tokens_avg"
    case CompletionMin => "llm_home_lab_host_completion_tokens_min"
    case CompletionMax => "llm_home_lab_host_completion_tokens_max"
    case Usage => "llm_home_lab_token_usage_total"
  }

  /** The per-host families in the order the reader tries them. */
  const FAMILIES: seq<Metric> :=
    [CompletionsTotal, LatencyAvg, PromptAvg, PromptMin, PromptMax, CompletionAvg, CompletionMin, CompletionMax]

  // ---------------------------------------------------------------- the page

  function PlainLine(name: string, text: string): string { name + " " + text }

  function HostLine(name: string, id: HostId, text: string): string { name + "{host_id=\"" + id + "\"} " + text }

  /** The comment lines of each family are an input. */
  type Comments = Metric -> seq<string>

  function HostLines(name: string, hosts: seq<HostId>, texts: map<HostId, string>): seq<string>
    requires forall h :: h in hosts ==> h in texts
  {
    if hosts == [] then []
    else HostLines(name, hosts[..|hosts| - 1], texts) + [HostLine(name, hosts[|hosts| - 1], texts[hosts[|hosts| - 1]])]
  }

  predicate IsWhole(m: Metric) {
    m == CompletionsTotal || m == PromptMin || m == PromptMax || m == CompletionMin || m == CompletionMax || m == Usage
  }

  predicate IsAverage(m: Metric) { m == LatencyAvg || m == PromptAvg || m == CompletionAvg }

  function Whole(m: Metric, stats: HostStats): int {
    match m
    case CompletionsTotal => stats.completionsTotal
    case PromptMin => stats.promptMin
    case PromptMax => stats.promptMax
    case CompletionMin => stats.completionMin
    case CompletionMax => stats.completionMax
    case _ => 0
  }

  function Average(m: Metric, stats: HostStats): string {
    match m
    case LatencyAvg => stats.latencyAvg
    case PromptAvg => stats.promptAvg
    case CompletionAvg => stats.completionAvg
    case _ => ""
  }

  function TextOf(m: Metric, stats: HostStats): string { if IsWhole(m) then Decimal(Whole(m, stats)) else Average(m, stats) }

  function Column(m: Metric, stats: map<HostId, HostStats>): map<HostId, string> {
    map h | h in stats :: TextOf(m, stats[h])
  }

  function UsageColumn(usage: map<HostId, int>): map<HostId, string> {
    map h | h in usage :: Decimal(usage[h])
  }

  ghost predicate Lists<T>(hosts: seq<HostId>, values: map<HostId, T>) {
    forall h :: h in hosts <==> h in values
  }

  /** A text the page can show as a number: something, and no whitespace in it. */
  predicate IsWord(s: string) { s != [] && NoSpace(s) }

  ghost predicate StatsOk(stats: HostStats) {
    IsWord(stats.latencyAvg) && IsWord(stats.promptAvg) && IsWord(stats.completionAvg)
  }

  ghost predicate WellFormed(s: Snapshot) {
    && Lists(s.saturationHosts, s.saturation) && Lists(s.statsHosts, s.stats) && Lists(s.usageHosts, s.usage)
    && IsWord(s.availability) && IsWord(s.p95) && (s.failoverRate.Some? ==> IsWord(s.failoverRate.value))
    && (forall h :: h in s.saturation ==> IsWord(s.saturation[h]))
    && (forall h :: h in s.stats ==> StatsOk(s.stats[h]))
  }

  function PlainBlock(m: Metric, text: string, comments: Comments): seq<string> {
    comments(m) + [PlainLine(Name(m), text)]
  }

  function HostBlock(m: Metric, hosts: seq<HostId>, texts: map<HostId, string>, comments: Comments): seq<string>
    requires forall h :: h in hosts ==> h in texts
  {
    comments(m) + HostLines(Name(m), hosts, texts)
  }

  /** The per-host families of completion figures, one after the other. */
  function StatsLines(families: seq<Metric>, s: Snapshot, comments: Comments): seq<string>
    requires forall h :: h in s.statsHosts ==> h in s.stats
    decreases |families|
  {
    if families == [] then []
    else
      var m := families[|families| - 1];
      StatsLines(families[..|families| - 1], s, comments) + HostBlock(m, s.statsHosts, Column(m, s.stats), comments)
  }

  function FailoverLines(s: Snapshot, comments: Comments): seq<string> {
    if s.failoverRate.Some? then PlainBlock(FailoverRate, s.failoverRate.value, comments) else []
  }

  function SaturationLines(s: Snapshot, comments: Comments): seq<string>
    requires forall h :: h in s.saturationHosts ==> h in s.saturation
  {
    if s.saturationHosts == [] then [] else HostBlock(Saturation, s.saturationHosts, s.saturation, comments)
  }

  function CompletionLines(s: Snapshot, comments: Comments): seq<string>
    requires forall h :: h in s.statsHosts ==> h in s.stats
  {
    if s.statsHosts == [] then [] else StatsLines(FAMILIES, s, comments)
  }

  function UsageLines(s: Snapshot, comments: Comments): seq<string>
    requires forall h :: h in s.usageHosts ==> h in s.usage
  {
    if s.usageHosts == [] then [] else HostBlock(Usage, s.usageHosts, UsageColumn(s.usage), comments)
  }

  function TopLines(s: Snapshot, comments: Comments): seq<string>
    requires forall h :: h in s.saturationHosts ==> h in s.saturation
  {
    PlainBlock(Availability, s.availability, comments) + PlainBlock(P95, s.p95, comments) + FailoverLines(s, comments)
    + SaturationLines(s, comments) + PlainBlock(QueueDepth, Decimal(s.queueDepth), comments)
  }

  function PageLines(s: Snapshot, comments: Comments): seq<string>
    requires forall h :: h in s.saturationHosts ==> h in s.saturation
    requires forall h :: h in s.statsHosts ==> h in s.stats
    requires forall h :: h in s.usageHosts ==> h in s.usage
  {
    TopLines(s, comments) + CompletionLines(s, comments) + UsageLines(s, comments)
  }

  // ---------------------------------------------------------------- the reader

  /** Whitespace, then a word up to the end. */
  function MatchValue(rest: string): Option<string> {
    if rest == [] || !IsSpace(rest[0]) then None
    else
      var word := StripLeft(rest);
      if IsWord(word) then Some(word) else None
  }

  function MatchPlain(name: string, line: string): Option<string> {
    if name <= line then MatchValue(line[|name|..]) else None
  }

  function QuoteAt(s: string): (k: nat)
    ensures k <= |s| && (forall i :: 0 <= i < k ==> s[i] != '"') && (k < |s| ==> s[k] == '"')
  {
    if s == [] || s[0] == '"' then 0 else 1 + QuoteAt(s[1..])
  }

  /** A non-empty quoted host id after the family's name, then its value. */
  function MatchHost(name: string, line: string): Option<(HostId, string)> {
    var head := name + "{host_id=\"";
    if !(head <= line) then None
    else
      var rest := line[|head|..];
      var q := QuoteAt(rest);
      if q == 0 || q + 1 >= |rest| || rest[q + 1] != '}' then None
      else
        var value := MatchValue(rest[q + 2..]);
        if value.Some? then Some((rest[..q], value.value)) else None
  }

  /** A whole number read through a double. */
  function AsInt(r: Reader, text: string): Option<int> {
    if ReadDecimal(text).Some? then Some(Double(ReadDecimal(text).value)) else r.wholePart(text)
  }

  function AsFloat(r: Reader, text: string): Option<string> { if r.isNumber(text) then Some(text) else None }

  /** A value that cannot be read leaves what is there. */
  function Put(p: Parsed, m: Metric, id: HostId, text: string, r: Reader): Parsed {
    if IsWhole(m) then
      if AsInt(r, text).Some? then p.(wholes := p.wholes[(m, id) := AsInt(r, text).value]) else p
    else if IsAverage(m) then
      if AsFloat(r, text).Some? then p.(averages := p.averages[(m, id) := text]) else p
    else p
  }

  /** The first family, in order, whose pattern the line fits. */
  function PutFirst(p: Parsed, families: seq<Metric>, line: string, r: Reader): Parsed
    decreases |families|
  {
    if families == [] then p
    else
      var found := MatchHost(Name(families[0]), line);
      if found.Some? then Put(p, families[0], found.value.0, found.value.1, r) else PutFirst(p, families[1..], line, r)
  }

  predicate Skipped(line: string) { (line != [] && line[0] == '#') || Strip(line) == [] }

  function Step(p: Parsed, line: string, r: Reader): Parsed {
    if Skipped(line) then p
    else if MatchPlain(Name(QueueDepth), line).Some? then p.(queueDepth := AsInt(r, MatchPlain(Name(QueueDepth), line).value))
    else if MatchPlain(Name(P95), line).Some? then p.(p95 := AsFloat(r, MatchPlain(Name(P95), line).value))
    else PutFirst(p, [Usage] + FAMILIES, line, r)
  }

  function ReadAll(p: Parsed, lines: seq<string>, r: Reader): Parsed
    decreases |lines|
  {
    if lines == [] then p else Step(ReadAll(p, lines[..|lines| - 1], r), lines[|lines| - 1], r)
  }

  function ParseText(body: string, r: Reader): Parsed { ReadAll(EMPTY, SplitLines(body), r) }

  method ParseMetricsText(body: string, r: Reader) returns (parsed: Parsed)
    ensures parsed == ParseText(body, r)
  {
    var lines := SplitLines(body);
    parsed := EMPTY;
    for i := 0 to |lines|
      invariant parsed == ReadAll(EMPTY, lines[..i], r)
    {
      assert lines[..i + 1][..i] == lines[..i];
      parsed := ParseLine(parsed, lines[i], r);
    }
    assert lines[..|lines|] == lines;
  }

  method ParseLine(p: Parsed, line: string, r: Reader) returns (next: Parsed)
    ensures next == Step(p, line, r)
  {
    if Skipped(line) {
      return p;
    }
    var depth := MatchPlain(Name(QueueDepth), line);
    if depth.Some? {
      return p.(queueDepth := AsInt(r, depth.value));
    }
    var latency := MatchPlain(Name(P95), line);
    if latency.Some? {
      return p.(p95 := AsFloat(r, latency.value));
    }
    var usage := MatchHost(Name(Usage), line);
    assert ([Usage] + FAMILIES)[1..] == FAMILIES;
    if usage.Some? {
      return Put(p, Usage, usage.value.0, usage.value.1, r);
    }
    next := p;
    for i := 0 to |FAMILIES|
      invariant next == p && PutFirst(p, FAMILIES[i..], line, r) == PutFirst(p, FAMILIES, line, r)
    {
      assert FAMILIES[i..][1..] == FAMILIES[i + 1..];
      var found := MatchHost(Name(FAMILIES[i]), line);
      if found.Some? {
        return Put(p, FAMILIES[i], found.value.0, found.value.1, r);
      }
    }
  }
}
