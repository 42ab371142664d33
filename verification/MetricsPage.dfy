/** The whole page: rendering and reading back. */
module MetricsPage {
  import opened Basics
  import opened Decimals
  import opened MetricsRoundTrip
  import opened MetricsText
  import opened TextLines

  // ---------------------------------------------------------------- what a page shows

  /** The integer a page shows for a family and a host. */
  function Shown(s: Snapshot, m: Metric, h: HostId): Option<int> {
    if m == Usage then if h in s.usage then Some(s.usage[h]) else None
    else if IsWhole(m) && h in s.stats then Some(Whole(m, s.stats[h]))
    else None
  }

  /** The average a page shows, as its text. */
  function ShownText(s: Snapshot, m: Metric, h: HostId): Option<string> {
    if IsAverage(m) && h in s.stats then Some(Average(m, s.stats[h])) else None
  }

  function Doubled(n: Option<int>): Option<int> { if n.Some? then Some(Double(n.value)) else None }

  function Readable(text: Option<string>, r: Reader): Option<string> { if text.Some? then AsFloat(r, text.value) else None }

  /** A cell was read as the page shows it, integers the way doubles hold them. */
  predicate CellReadsBack(p: Parsed, s: Snapshot, r: Reader, m: Metric, h: HostId) {
    WholeIn(p, m, h) == Doubled(Shown(s, m, h)) && AverageIn(p, m, h) == Readable(ShownText(s, m, h), r)
  }

  ghost predicate ReadsBack(p: Parsed, s: Snapshot, r: Reader) {
    && p.queueDepth == Some(Double(s.queueDepth)) && p.p95 == AsFloat(r, s.p95)
    && forall m, h :: CellReadsBack(p, s, r, m, h)
  }

  ghost predicate AllFit(hosts: seq<HostId>) { forall h :: h in hosts ==> Fit(h) }

  /** No host id spans lines. */
  ghost predicate NoneBreaks(hosts: seq<HostId>) { forall h :: h in hosts ==> OneLine(h) }

  // ---------------------------------------------------------------- reading the page's lines

  lemma ColumnPrints(m: Metric, s: Snapshot)
    requires WellFormed(s) && AllFit(s.statsHosts) && m in FAMILIES
    ensures Printable(s.statsHosts, Column(m, s.stats))
  {
    assert IsWhole(m) || IsAverage(m);
    forall h | h in s.statsHosts ensures IsWord(Column(m, s.stats)[h]) {
      assert StatsOk(s.stats[h]);
      DecimalReadsBack(Whole(m, s.stats[h]));
    }
  }

  lemma UsagePrints(s: Snapshot)
    requires WellFormed(s) && AllFit(s.usageHosts)
    ensures Printable(s.usageHosts, UsageColumn(s.usage))
  {
    forall h | h in s.usageHosts ensures IsWord(UsageColumn(s.usage)[h]) {
      DecimalReadsBack(s.usage[h]);
    }
  }

  /** A cell after one family of completion figures was read. */
  function WholeFrom(s: Snapshot, m: Metric, h: HostId, n: Metric, before: Option<int>): Option<int> {
    if m == n && IsWhole(m) && h in s.stats then Some(Double(Whole(m, s.stats[h]))) else before
  }

  function AverageFrom(s: Snapshot, r: Reader, m: Metric, h: HostId, n: Metric, before: Option<string>): Option<string> {
    if m == n && IsAverage(m) && h in s.stats && r.isNumber(Average(m, s.stats[h])) then Some(Average(m, s.stats[h])) else before
  }

  function WholeFromAll(s: Snapshot, m: Metric, h: HostId, families: seq<Metric>, before: Option<int>): Option<int> {
    if families == [] then before
    else WholeFrom(s, m, h, families[|families| - 1], WholeFromAll(s, m, h, families[..|families| - 1], before))
  }

  function AverageFromAll(s: Snapshot, r: Reader, m: Metric, h: HostId, families: seq<Metric>, before: Option<string>): Option<string>
    decreases |families|
  {
    if families == [] then before
    else AverageFrom(s, r, m, h, families[|families| - 1], AverageFromAll(s, r, m, h, families[..|families| - 1], before))
  }

  lemma TextLeaves(m: Metric, stats: HostStats, r: Reader, whole: Option<int>, average: Option<string>)
    ensures WholeLeft(m, TextOf(m, stats), r, whole) == if IsWhole(m) then Some(Double(Whole(m, stats))) else whole
    ensures AverageLeft(m, TextOf(m, stats), r, average) ==
            if IsAverage(m) && r.isNumber(Average(m, stats)) then Some(Average(m, stats)) else average
  {
    DecimalReadsBack(Whole(m, stats));
  }

  lemma WholesOfFamily(p: Parsed, n: Metric, hosts: seq<HostId>, texts: map<HostId, string>, r: Reader, m: Metric, h: HostId, left: Option<int>)
    requires forall g :: g in hosts ==> g in texts
    requires h in hosts ==> WholeLeft(n, texts[h], r, WholeIn(p, m, h)) == left
    ensures WholeIn(PutAll(p, n, hosts, texts, r), m, h) == if m == n && h in hosts then left else WholeIn(p, m, h)
  {
    WholesFilled(p, n, hosts, texts, r, m, h);
  }

  lemma AveragesOfFamily(p: Parsed, n: Metric, hosts: seq<HostId>, texts: map<HostId, string>, r: Reader, m: Metric, h: HostId, left: Option<string>)
    requires forall g :: g in hosts ==> g in texts
    requires h in hosts ==> AverageLeft(n, texts[h], r, AverageIn(p, m, h)) == left
    ensures AverageIn(PutAll(p, n, hosts, texts, r), m, h) == if m == n && h in hosts then left else AverageIn(p, m, h)
  {
    AveragesFilled(p, n, hosts, texts, r, m, h);
  }

  /** What the text of one cell leaves there. */
  lemma ColumnLeaves(n: Metric, s: Snapshot, r: Reader, h: HostId, whole: Option<int>, average: Option<string>)
    requires h in s.stats
    ensures WholeLeft(n, Column(n, s.stats)[h], r, whole) == WholeFrom(s, n, h, n, whole)
    ensures AverageLeft(n, Column(n, s.stats)[h], r, average) == AverageFrom(s, r, n, h, n, average)
  {
    TextLeaves(n, s.stats[h], r, whole, average);
  }

  lemma WholeFilled(p: Parsed, n: Metric, s: Snapshot, r: Reader, m: Metric, h: HostId)
    requires Lists(s.statsHosts, s.stats)
    ensures WholeIn(PutAll(p, n, s.statsHosts, Column(n, s.stats), r), m, h) == WholeFrom(s, m, h, n, WholeIn(p, m, h))
  {
    var whole := WholeIn(p, m, h);
    if h in s.stats {
      ColumnLeaves(n, s, r, h, whole, None);
    }
    WholesOfFamily(p, n, s.statsHosts, Column(n, s.stats), r, m, h, WholeFrom(s, n, h, n, whole));
  }

  lemma AverageFilled(p: Parsed, n: Metric, s: Snapshot, r: Reader, m: Metric, h: HostId)
    requires Lists(s.statsHosts, s.stats)
    ensures AverageIn(PutAll(p, n, s.statsHosts, Column(n, s.stats), r), m, h) == AverageFrom(s, r, m, h, n, AverageIn(p, m, h))
  {
    var average := AverageIn(p, m, h);
    if h in s.stats {
      ColumnLeaves(n, s, r, h, None, average);
    }
    AveragesOfFamily(p, n, s.statsHosts, Column(n, s.stats), r, m, h, AverageFrom(s, r, n, h, n, average));
  }

  lemma {:induction false} StatsRead(p: Parsed, families: seq<Metric>, s: Snapshot, comments: Comments, r: Reader, m: Metric, h: HostId)
    requires WellFormed(s) && AllFit(s.statsHosts) && CommentsOk(comments)
    requires forall i :: 0 <= i < |families| ==> families[i] in FAMILIES
    ensures var q := ReadAll(p, StatsLines(families, s, comments), r);
            && q.queueDepth == p.queueDepth && q.p95 == p.p95
            && WholeIn(q, m, h) == WholeFromAll(s, m, h, families, WholeIn(p, m, h))
            && AverageIn(q, m, h) == AverageFromAll(s, r, m, h, families, AverageIn(p, m, h))
    decreases |families|
  {
    if families != [] {
      var init, n := families[..|families| - 1], families[|families| - 1];
      var before := ReadAll(p, StatsLines(init, s, comments), r);
      StatsRead(p, init, s, comments, r, m, h);
      OneFamilyRead(p, init, n, s, comments, r);
      PlainFiguresKept(before, n, s.statsHosts, Column(n, s.stats), r);
      WholeFilled(before, n, s, r, m, h);
      AverageFilled(before, n, s, r, m, h);
    }
  }

  lemma OneFamilyRead(p: Parsed, init: seq<Metric>, n: Metric, s: Snapshot, comments: Comments, r: Reader)
    requires WellFormed(s) && AllFit(s.statsHosts) && CommentsOk(comments) && n in FAMILIES
    ensures ReadAll(p, StatsLines(init + [n], s, comments), r) ==
            PutAll(ReadAll(p, StatsLines(init, s, comments), r), n, s.statsHosts, Column(n, s.stats), r)
  {
    ColumnPrints(n, s);
    assert (init + [n])[..|init|] == init;
    ReadAppend(p, StatsLines(init, s, comments), HostBlock(n, s.statsHosts, Column(n, s.stats), comments), r);
    BlockReads(ReadAll(p, StatsLines(init, s, comments), r), n, s.statsHosts, Column(n, s.stats), comments, r);
  }

  lemma {:induction false} FamiliesHoldFigures(s: Snapshot, r: Reader, m: Metric, h: HostId, families: seq<Metric>)
    ensures WholeFromAll(s, m, h, families, None) ==
            if m in families && IsWhole(m) && h in s.stats then Some(Double(Whole(m, s.stats[h]))) else None
    ensures AverageFromAll(s, r, m, h, families, None) ==
            if m in families && IsAverage(m) && h in s.stats then AsFloat(r, Average(m, s.stats[h])) else None
  {
    if families != [] {
      var init := families[..|families| - 1];
      FamiliesHoldFigures(s, r, m, h, init);
      assert m in families <==> m in init || m == families[|families| - 1];
    }
  }

  lemma UsageFilled(p: Parsed, s: Snapshot, r: Reader, m: Metric, h: HostId)
    requires WellFormed(s)
    ensures var q := PutAll(p, Usage, s.usageHosts, UsageColumn(s.usage), r);
            && q.queueDepth == p.queueDepth && q.p95 == p.p95
            && WholeIn(q, m, h) == (if m == Usage && h in s.usage then Some(Double(s.usage[h])) else WholeIn(p, m, h))
            && AverageIn(q, m, h) == AverageIn(p, m, h)
  {
    PlainFiguresKept(p, Usage, s.usageHosts, UsageColumn(s.usage), r);
    WholesFilled(p, Usage, s.usageHosts, UsageColumn(s.usage), r, m, h);
    AveragesFilled(p, Usage, s.usageHosts, UsageColumn(s.usage), r, m, h);
    if h in s.usage {
      DecimalReadsBack(s.usage[h]);
    }
  }

  /** The lines above the completion figures set the two plain figures and no cell. */
  lemma TopReads(s: Snapshot, comments: Comments, r: Reader)
    requires WellFormed(s) && CommentsOk(comments)
    ensures ReadAll(EMPTY, TopLines(s, comments), r) == EMPTY.(p95 := AsFloat(r, s.p95), queueDepth := Some(Double(s.queueDepth)))
  {
    var a, b := PlainBlock(Availability, s.availability, comments), PlainBlock(P95, s.p95, comments);
    var c, d := FailoverLines(s, comments), SaturationLines(s, comments);
    var p := EMPTY.(p95 := AsFloat(r, s.p95));
    PlainReads(EMPTY, Availability, s.availability, comments, r);
    PlainReads(EMPTY, P95, s.p95, comments, r);
    ReadAppend(EMPTY, a, b, r);
    ReadAppend(EMPTY, a + b, c, r);
    if s.failoverRate.Some? {
      PlainReads(p, FailoverRate, s.failoverRate.value, comments, r);
    }
    ReadAppend(EMPTY, a + b + c, d, r);
    SaturationReads(p, s, comments, r);
    DecimalReadsBack(s.queueDepth);
    ReadAppend(EMPTY, a + b + c + d, PlainBlock(QueueDepth, Decimal(s.queueDepth), comments), r);
    PlainReads(p, QueueDepth, Decimal(s.queueDepth), comments, r);
  }

  lemma SaturationReads(p: Parsed, s: Snapshot, comments: Comments, r: Reader)
    requires WellFormed(s) && CommentsOk(comments)
    ensures ReadAll(p, SaturationLines(s, comments), r) == p
  {
    ReadAppend(p, comments(Saturation), HostLines(Name(Saturation), s.saturationHosts, s.saturation), r);
    CommentsRead(p, comments(Saturation), r);
    SaturationIgnored(p, s.saturationHosts, s.saturation, r);
  }

  lemma {:induction false} SaturationIgnored(p: Parsed, hosts: seq<HostId>, texts: map<HostId, string>, r: Reader)
    requires forall h :: h in hosts ==> h in texts
    ensures ReadAll(p, HostLines(Name(Saturation), hosts, texts), r) == p
  {
    if hosts != [] {
      var init, h := hosts[..|hosts| - 1], hosts[|hosts| - 1];
      var rest := "{host_id=\"" + h + "\"} " + texts[h];
      var lines := HostLines(Name(Saturation), init, texts);
      SaturationIgnored(p, init, texts, r);
      assert HostLine(Name(Saturation), h, texts[h]) == Name(Saturation) + rest;
      ReadAppend(p, lines, [HostLine(Name(Saturation), h, texts[h])], r);
      OneStep(p, HostLine(Name(Saturation), h, texts[h]), r);
      SaturationStep(p, rest, r);
    }
  }

  lemma CompletionsRead(p: Parsed, s: Snapshot, comments: Comments, r: Reader, m: Metric, h: HostId)
    requires WellFormed(s) && AllFit(s.statsHosts) && CommentsOk(comments)
    requires WholeIn(p, m, h).None? && AverageIn(p, m, h).None?
    ensures var q := ReadAll(p, CompletionLines(s, comments), r);
            && q.queueDepth == p.queueDepth && q.p95 == p.p95
            && WholeIn(q, m, h) == (if m == Usage then None else Doubled(Shown(s, m, h)))
            && AverageIn(q, m, h) == Readable(ShownText(s, m, h), r)
  {
    if s.statsHosts == [] {
      assert h in s.stats ==> h in s.statsHosts;
    } else {
      StatsRead(p, FAMILIES, s, comments, r, m, h);
      FamiliesHoldTheFigures(s, r, m, h);
    }
  }

  lemma FamiliesHoldTheFigures(s: Snapshot, r: Reader, m: Metric, h: HostId)
    ensures WholeFromAll(s, m, h, FAMILIES, None) == (if m == Usage then None else Doubled(Shown(s, m, h)))
    ensures AverageFromAll(s, r, m, h, FAMILIES, None) == Readable(ShownText(s, m, h), r)
  {
    FamiliesAreFigures(m);
    FamiliesHoldFigures(s, r, m, h, FAMILIES);
  }

  lemma PageIsThree(s: Snapshot, comments: Comments, r: Reader)
    requires WellFormed(s) && AllFit(s.usageHosts) && CommentsOk(comments)
    ensures var p := EMPTY.(p95 := AsFloat(r, s.p95), queueDepth := Some(Double(s.queueDepth)));
            var q := ReadAll(p, CompletionLines(s, comments), r);
            ReadAll(EMPTY, PageLines(s, comments), r) == PutAll(q, Usage, s.usageHosts, UsageColumn(s.usage), r)
  {
    var top, stats, usage := TopLines(s, comments), CompletionLines(s, comments), UsageLines(s, comments);
    TopReads(s, comments, r);
    ReadAppend(EMPTY, top, stats, r);
    ReadAppend(EMPTY, top + stats, usage, r);
    UsagePrints(s);
    BlockReads(ReadAll(EMPTY, top + stats, r), Usage, s.usageHosts, UsageColumn(s.usage), comments, r);
  }

  lemma LinesReadBack(s: Snapshot, comments: Comments, r: Reader)
    requires WellFormed(s) && AllFit(s.statsHosts) && AllFit(s.usageHosts) && CommentsOk(comments)
    ensures ReadsBack(ReadAll(EMPTY, PageLines(s, comments), r), s, r)
  {
    PageIsThree(s, comments, r);
    var p := EMPTY.(p95 := AsFloat(r, s.p95), queueDepth := Some(Double(s.queueDepth)));
    CellsReadBack(p, s, comments, r);
  }

  lemma CellsReadBack(p: Parsed, s: Snapshot, comments: Comments, r: Reader)
    requires WellFormed(s) && AllFit(s.statsHosts) && CommentsOk(comments)
    requires p == EMPTY.(p95 := AsFloat(r, s.p95), queueDepth := Some(Double(s.queueDepth)))
    ensures ReadsBack(PutAll(ReadAll(p, CompletionLines(s, comments), r), Usage, s.usageHosts, UsageColumn(s.usage), r), s, r)
  {
    var q := ReadAll(p, CompletionLines(s, comments), r);
    CompletionsRead(p, s, comments, r, Usage, "");
    UsageFilled(q, s, r, Usage, "");
    forall m, h ensures CellReadsBack(PutAll(q, Usage, s.usageHosts, UsageColumn(s.usage), r), s, r, m, h) {
      CompletionsRead(p, s, comments, r, m, h);
      UsageFilled(q, s, r, m, h);
    }
  }

  lemma FamiliesAreFigures(m: Metric)
    ensures m in FAMILIES <==> (IsWhole(m) && m != Usage) || IsAverage(m)
  {
    assert FAMILIES[0] == CompletionsTotal && FAMILIES[1] == LatencyAvg && FAMILIES[2] == PromptAvg && FAMILIES[3] == PromptMin;
    assert FAMILIES[4] == PromptMax && FAMILIES[5] == CompletionAvg && FAMILIES[6] == CompletionMin && FAMILIES[7] == CompletionMax;
  }

  // ---------------------------------------------------------------- the page's lines stay lines

  predicate AllOneLine(lines: seq<string>) {
    lines == [] || (OneLine(lines[|lines| - 1]) && AllOneLine(lines[..|lines| - 1]))
  }

  lemma {:induction false} EachIsOneLine(lines: seq<string>)
    ensures AllOneLine(lines) <==> forall i :: 0 <= i < |lines| ==> OneLine(lines[i])
  {
    if lines != [] {
      var init := lines[..|lines| - 1];
      EachIsOneLine(init);
      assert forall i :: 0 <= i < |init| ==> init[i] == lines[i];
    }
  }

  lemma {:induction false} LinesAppend(a: seq<string>, b: seq<string>)
    requires AllOneLine(a) && AllOneLine(b)
    ensures AllOneLine(a + b)
    decreases |b|
  {
    if b == [] {
      assert a + b == a;
    } else {
      LinesAppend(a, b[..|b| - 1]);
      assert (a + b)[..|a + b| - 1] == a + b[..|b| - 1];
    }
  }

  lemma OneLineAppend(a: string, b: string)
    requires OneLine(a) && OneLine(b)
    ensures OneLine(a + b)
  {
  }

  lemma WordIsOneLine(s: string)
    requires IsWord(s)
    ensures OneLine(s)
  {
  }

  lemma PlainIsLines(m: Metric, text: string, comments: Comments)
    requires IsWord(text) && CommentsOk(comments)
    ensures AllOneLine(PlainBlock(m, text, comments))
  {
    EachIsOneLine(comments(m));
    NamesAreClean(m);
    WordIsOneLine(text);
    OneLineAppend(Name(m), " ");
    OneLineAppend(Name(m) + " ", text);
    EachIsOneLine([PlainLine(Name(m), text)]);
    LinesAppend(comments(m), [PlainLine(Name(m), text)]);
  }

  lemma HostLineIsLine(name: string, id: HostId, text: string)
    requires OneLine(name) && OneLine(id) && IsWord(text)
    ensures OneLine(HostLine(name, id, text))
  {
    WordIsOneLine(text);
    OneLineAppend(name, "{host_id=\"");
    OneLineAppend(name + "{host_id=\"", id);
    OneLineAppend(name + "{host_id=\"" + id, "\"} ");
    OneLineAppend(name + "{host_id=\"" + id + "\"} ", text);
  }

  lemma {:induction false} HostLinesAreLines(name: string, hosts: seq<HostId>, texts: map<HostId, string>)
    requires OneLine(name) && forall h :: h in hosts ==> h in texts && OneLine(h) && IsWord(texts[h])
    ensures AllOneLine(HostLines(name, hosts, texts))
  {
    if hosts != [] {
      var init, h := hosts[..|hosts| - 1], hosts[|hosts| - 1];
      HostLinesAreLines(name, init, texts);
      HostLineIsLine(name, h, texts[h]);
      var lines := HostLines(name, init, texts) + [HostLine(name, h, texts[h])];
      assert lines[..|lines| - 1] == HostLines(name, init, texts);
    }
  }

  lemma BlockIsLines(m: Metric, hosts: seq<HostId>, texts: map<HostId, string>, comments: Comments)
    requires CommentsOk(comments) && forall h :: h in hosts ==> h in texts && OneLine(h) && IsWord(texts[h])
    ensures AllOneLine(HostBlock(m, hosts, texts, comments))
  {
    EachIsOneLine(comments(m));
    NamesAreClean(m);
    HostLinesAreLines(Name(m), hosts, texts);
    LinesAppend(comments(m), HostLines(Name(m), hosts, texts));
  }

  lemma {:induction false} StatsAreLines(families: seq<Metric>, s: Snapshot, comments: Comments)
    requires WellFormed(s) && AllFit(s.statsHosts) && CommentsOk(comments)
    requires forall i :: 0 <= i < |families| ==> families[i] in FAMILIES
    ensures AllOneLine(StatsLines(families, s, comments))
    decreases |families|
  {
    if families != [] {
      var init, m := families[..|families| - 1], families[|families| - 1];
      StatsAreLines(init, s, comments);
      ColumnPrints(m, s);
      BlockIsLines(m, s.statsHosts, Column(m, s.stats), comments);
      LinesAppend(StatsLines(init, s, comments), HostBlock(m, s.statsHosts, Column(m, s.stats), comments));
    }
  }

  lemma TopIsLines(s: Snapshot, comments: Comments)
    requires WellFormed(s) && NoneBreaks(s.saturationHosts) && CommentsOk(comments)
    ensures AllOneLine(TopLines(s, comments))
  {
    var a, b := PlainBlock(Availability, s.availability, comments), PlainBlock(P95, s.p95, comments);
    var c, d := FailoverLines(s, comments), SaturationLines(s, comments);
    PlainIsLines(Availability, s.availability, comments);
    PlainIsLines(P95, s.p95, comments);
    LinesAppend(a, b);
    if s.failoverRate.Some? {
      PlainIsLines(FailoverRate, s.failoverRate.value, comments);
    }
    LinesAppend(a + b, c);
    BlockIsLines(Saturation, s.saturationHosts, s.saturation, comments);
    LinesAppend(a + b + c, d);
    DecimalReadsBack(s.queueDepth);
    PlainIsLines(QueueDepth, Decimal(s.queueDepth), comments);
    LinesAppend(a + b + c + d, PlainBlock(QueueDepth, Decimal(s.queueDepth), comments));
  }

  lemma PageIsLines(s: Snapshot, comments: Comments)
    requires WellFormed(s) && NoneBreaks(s.saturationHosts) && AllFit(s.statsHosts) && AllFit(s.usageHosts) && CommentsOk(comments)
    ensures AllOneLine(PageLines(s, comments))
  {
    TopIsLines(s, comments);
    StatsAreLines(FAMILIES, s, comments);
    UsagePrints(s);
    BlockIsLines(Usage, s.usageHosts, UsageColumn(s.usage), comments);
    LinesAppend(TopLines(s, comments), CompletionLines(s, comments));
    LinesAppend(TopLines(s, comments) + CompletionLines(s, comments), UsageLines(s, comments));
  }

  // ---------------------------------------------------------------- only fit ids are ever read

  ghost predicate OnlyFit(p: Parsed) {
    forall m, h :: (m, h) in p.wholes || (m, h) in p.averages ==> Fit(h)
  }

  lemma MatchedIdIsFit(name: string, line: string)
    requires OneLine(line)
    ensures MatchHost(name, line).Some? ==> Fit(MatchHost(name, line).value.0)
  {
    if MatchHost(name, line).Some? {
      var n := |name + "{host_id=\""|;
      var id := MatchHost(name, line).value.0;
      assert forall i :: 0 <= i < |id| ==> id[i] == line[n + i];
    }
  }

  lemma PutKeepsFit(p: Parsed, m: Metric, id: HostId, text: string, r: Reader)
    requires OnlyFit(p) && Fit(id)
    ensures OnlyFit(Put(p, m, id, text, r))
  {
  }

  lemma {:induction false} FirstKeepsFit(p: Parsed, families: seq<Metric>, line: string, r: Reader)
    requires OneLine(line) && OnlyFit(p)
    ensures OnlyFit(PutFirst(p, families, line, r))
  {
    if families != [] {
      var found := MatchHost(Name(families[0]), line);
      if found.Some? {
        MatchedIdIsFit(Name(families[0]), line);
        PutKeepsFit(p, families[0], found.value.0, found.value.1, r);
      } else {
        FirstKeepsFit(p, families[1..], line, r);
      }
    }
  }

  lemma {:induction false} ReadKeepsFit(p: Parsed, lines: seq<string>, r: Reader)
    requires AllOneLine(lines) && OnlyFit(p)
    ensures OnlyFit(ReadAll(p, lines, r))
    decreases |lines|
  {
    if lines != [] {
      var before := ReadAll(p, lines[..|lines| - 1], r);
      ReadKeepsFit(p, lines[..|lines| - 1], r);
      FirstKeepsFit(before, [Usage] + FAMILIES, lines[|lines| - 1], r);
      StepSetsPlainOrCell(before, lines[|lines| - 1], r);
    }
  }

  lemma StepSetsPlainOrCell(p: Parsed, line: string, r: Reader)
    ensures var q := Step(p, line, r);
            (q.wholes == p.wholes && q.averages == p.averages) || q == PutFirst(p, [Usage] + FAMILIES, line, r)
  {
  }

  /** Whatever the text, no host id that is empty, holds a quote or spans lines is ever read. */
  lemma ParsedIdsAreFit(body: string, r: Reader)
    ensures OnlyFit(ParseText(body, r))
  {
    EachIsOneLine(SplitLines(body));
    ReadKeepsFit(EMPTY, SplitLines(body), r);
  }

  // ---------------------------------------------------------------- the round trip

  /** A page that reads back has figures for fit host ids only, whatever other hosts it lists. */
  lemma ReadBackNeedsFitIds(s: Snapshot, comments: Comments, r: Reader)
    requires WellFormed(s) && ReadsBack(ParseText(JoinLines(PageLines(s, comments)), r), s, r)
    ensures AllFit(s.statsHosts) && AllFit(s.usageHosts)
  {
    var body := JoinLines(PageLines(s, comments));
    ParsedIdsAreFit(body, r);
    ReadHostsAreFit(ParseText(body, r), s, r);
  }

  /** While no listed host id spans lines, the page reads back cell by cell exactly when every
      host id with figures is fit. */
  lemma RoundTripExactlyWhenFit(s: Snapshot, comments: Comments, r: Reader)
    requires WellFormed(s) && NoneBreaks(s.saturationHosts) && CommentsOk(comments)
    ensures ReadsBack(ParseText(JoinLines(PageLines(s, comments)), r), s, r) <==> AllFit(s.statsHosts) && AllFit(s.usageHosts)
  {
    if AllFit(s.statsHosts) && AllFit(s.usageHosts) {
      PageIsLines(s, comments);
      EachIsOneLine(PageLines(s, comments));
      SplitUndoesJoin(PageLines(s, comments));
      LinesReadBack(s, comments, r);
    }
    if ReadsBack(ParseText(JoinLines(PageLines(s, comments)), r), s, r) {
      ReadBackNeedsFitIds(s, comments, r);
    }
  }

  lemma ReadHostsAreFit(p: Parsed, s: Snapshot, r: Reader)
    requires WellFormed(s) && OnlyFit(p) && ReadsBack(p, s, r)
    ensures AllFit(s.statsHosts) && AllFit(s.usageHosts)
  {
    forall h | h in s.statsHosts ensures Fit(h) {
      assert CellReadsBack(p, s, r, CompletionsTotal, h);
      assert (CompletionsTotal, h) in p.wholes;
    }
    forall h | h in s.usageHosts ensures Fit(h) {
      assert CellReadsBack(p, s, r, Usage, h);
      assert (Usage, h) in p.wholes;
    }
  }

  /** An integer comes back unchanged exactly when it is representable as a double. */
  lemma IntegersComeBackWhenRepresentable(s: Snapshot, comments: Comments, r: Reader, m: Metric, h: HostId)
    requires WellFormed(s) && NoneBreaks(s.saturationHosts) && AllFit(s.statsHosts) && AllFit(s.usageHosts) && CommentsOk(comments)
    requires Shown(s, m, h).Some?
    ensures var p := ParseText(JoinLines(PageLines(s, comments)), r);
            && (WholeIn(p, m, h) == Shown(s, m, h) <==> Representable(Shown(s, m, h).value))
            && (p.queueDepth == Some(s.queueDepth) <==> Representable(s.queueDepth))
  {
    RoundTripExactlyWhenFit(s, comments, r);
    DoubleExactWhenRepresentable(Shown(s, m, h).value);
    DoubleExactWhenRepresentable(s.queueDepth);
    assert CellReadsBack(ParseText(JoinLines(PageLines(s, comments)), r), s, r, m, h);
  }

  // ---------------------------------------------------------------- rendering

  /** The page of a snapshot: reading it gives the figures back. */
  method RenderPrometheus(s: Snapshot, comments: Comments, ghost r: Reader) returns (body: string)
    requires WellFormed(s) && CommentsOk(comments)
    ensures body == JoinLines(PageLines(s, comments))
    ensures NoneBreaks(s.saturationHosts) && AllFit(s.statsHosts) && AllFit(s.usageHosts) ==> ReadsBack(ParseText(body, r), s, r)
  {
    var lines := BuildLines(s, comments);
    if NoneBreaks(s.saturationHosts) {
      RoundTripExactlyWhenFit(s, comments, r);
    }
    return JoinLines(lines);
  }

  method BuildLines(s: Snapshot, comments: Comments) returns (lines: seq<string>)
    requires WellFormed(s)
    ensures lines == PageLines(s, comments)
  {
    lines := PlainBlock(Availability, s.availability, comments) + PlainBlock(P95, s.p95, comments);
    lines := lines + FailoverLines(s, comments);
    lines := lines + SaturationLines(s, comments);
    lines := lines + PlainBlock(QueueDepth, Decimal(s.queueDepth), comments);
    lines := lines + CompletionLines(s, comments);
    lines := lines + UsageLines(s, comments);
  }
}
