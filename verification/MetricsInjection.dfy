/** Why the round trip asks that no listed host id spans lines: a host without any figures whose
    id does can put a cell of another host on the page. */
module MetricsInjection {
  import opened Basics
  import opened Decimals
  import opened MetricsPage
  import opened MetricsRoundTrip
  import opened MetricsText
  import opened TextLines

  /** A host id with a token usage line of host g in its middle. */
  function InjectingId(g: HostId, n: int): HostId { "x\n" + HostLine(Name(Usage), g, Decimal(n)) + "\n#" }

  /** The three lines that its saturation line becomes. */
  function BrokenLine(g: HostId, n: int, text: string): seq<string> {
    [Name(Saturation) + "{host_id=\"x", HostLine(Name(Usage), g, Decimal(n)), "#\"} " + text]
  }

  lemma {:induction false} JoinAppend(a: seq<string>, b: seq<string>)
    ensures JoinLines(a + b) == JoinLines(a) + JoinLines(b)
  {
    if a == [] {
      assert a + b == b;
    } else {
      JoinAppend(a[1..], b);
      assert (a + b)[1..] == a[1..] + b;
    }
  }

  lemma JoinThree(x: string, y: string, z: string)
    ensures JoinLines([x, y, z]) == JoinLines([x + "\n" + y + "\n" + z])
  {
    assert [x, y, z][1..] == [y, z] && [y, z][1..] == [z] && [z][1..] == [];
    assert JoinLines([z]) == z + "\n";
    assert JoinLines([y, z]) == y + "\n" + (z + "\n");
    assert [x + "\n" + y + "\n" + z][1..] == [];
  }

  lemma LineBreaks(g: HostId, n: int, text: string)
    ensures JoinLines([HostLine(Name(Saturation), InjectingId(g, n), text)]) == JoinLines(BrokenLine(g, n, text))
  {
    var x, y, z := Name(Saturation) + "{host_id=\"x", HostLine(Name(Usage), g, Decimal(n)), "#\"} " + text;
    Regrouped(Name(Saturation) + "{host_id=\"", y, text);
    JoinThree(x, y, z);
  }

  lemma Regrouped(head: string, y: string, text: string)
    ensures head + ("x\n" + y + "\n#") + "\"} " + text == (head + "x") + "\n" + y + "\n" + ("#\"} " + text)
  {
    assert head + ("x\n" + y + "\n#") + "\"} " + text == head + "x\n" + y + "\n#" + "\"} " + text;
    assert (head + "x") + "\n" + y + "\n" + ("#\"} " + text) == head + "x\n" + y + "\n#" + "\"} " + text;
  }

  /** The broken line sets the other host's cell and nothing else. */
  lemma BrokenLineReads(p: Parsed, g: HostId, n: int, text: string, r: Reader)
    requires Fit(g)
    ensures ReadAll(p, BrokenLine(g, n, text), r) == p.(wholes := p.wholes[(Usage, g) := Double(n)])
  {
    var lines := BrokenLine(g, n, text);
    var rest := "{host_id=\"x";
    DecimalReadsBack(n);
    assert lines == [lines[0]] + [lines[1]] + [lines[2]];
    ReadAppend(p, [lines[0]] + [lines[1]], [lines[2]], r);
    ReadAppend(p, [lines[0]], [lines[1]], r);
    OneStep(p, lines[0], r);
    SaturationStep(p, rest, r);
    OneStep(p, lines[1], r);
    HostStep(p, Usage, g, Decimal(n), r);
    OneStep(Put(p, Usage, g, Decimal(n), r), lines[2], r);
    assert lines[2][0] == '#';
  }

  lemma ThreeLines(x: string, y: string, z: string)
    requires OneLine(x) && OneLine(y) && OneLine(z)
    ensures AllOneLine([x, y, z])
  {
    EachIsOneLine([x, y, z]);
  }

  lemma SaturationHeadIsLine()
    ensures OneLine(Name(Saturation) + "{host_id=\"x")
  {
    NamesAreClean(Saturation);
    OneLineAppend(Name(Saturation), "{host_id=\"x");
  }

  lemma UsageLineIsLine(g: HostId, n: int)
    requires Fit(g)
    ensures OneLine(HostLine(Name(Usage), g, Decimal(n)))
  {
    DecimalReadsBack(n);
    NamesAreClean(Usage);
    HostLineIsLine(Name(Usage), g, Decimal(n));
  }

  lemma BrokenLineIsLines(g: HostId, n: int, text: string)
    requires Fit(g) && IsWord(text)
    ensures AllOneLine(BrokenLine(g, n, text))
  {
    SaturationHeadIsLine();
    UsageLineIsLine(g, n);
    WordIsOneLine(text);
    OneLineAppend("#\"} ", text);
    ThreeLines(Name(Saturation) + "{host_id=\"x", HostLine(Name(Usage), g, Decimal(n)), "#\"} " + text);
  }

  // ---------------------------------------------------------------- the page with such a host

  function Before(s: Snapshot, comments: Comments): seq<string> {
    PlainBlock(Availability, s.availability, comments) + PlainBlock(P95, s.p95, comments) + FailoverLines(s, comments)
    + comments(Saturation)
  }

  function After(s: Snapshot, comments: Comments): seq<string>
    requires forall h :: h in s.statsHosts ==> h in s.stats
    requires forall h :: h in s.usageHosts ==> h in s.usage
  {
    PlainBlock(QueueDepth, Decimal(s.queueDepth), comments) + CompletionLines(s, comments) + UsageLines(s, comments)
  }

  ghost predicate OneBadHost(s: Snapshot, g: HostId, n: int) {
    WellFormed(s) && s.saturationHosts == [InjectingId(g, n)] && AllFit(s.statsHosts) && AllFit(s.usageHosts)
  }

  lemma Regroup<T>(a: seq<T>, b: seq<T>, c: seq<T>, d: seq<T>, e: seq<T>, f: seq<T>)
    ensures a + (b + c) + d + e + f == (a + b) + c + (d + e + f)
  {
  }

  lemma PageAround(s: Snapshot, comments: Comments, g: HostId, n: int)
    requires OneBadHost(s, g, n) && InjectingId(g, n) in s.saturation
    ensures PageLines(s, comments) ==
            Before(s, comments) + [HostLine(Name(Saturation), InjectingId(g, n), s.saturation[InjectingId(g, n)])] + After(s, comments)
  {
    var id := InjectingId(g, n);
    OneHostLine(Name(Saturation), id, s.saturation);
    PageParts(s, comments, [HostLine(Name(Saturation), id, s.saturation[id])]);
  }

  lemma PageParts(s: Snapshot, comments: Comments, lines: seq<string>)
    requires WellFormed(s) && s.saturationHosts != [] && lines == HostLines(Name(Saturation), s.saturationHosts, s.saturation)
    ensures PageLines(s, comments) == Before(s, comments) + lines + After(s, comments)
  {
    var top := PlainBlock(Availability, s.availability, comments) + PlainBlock(P95, s.p95, comments) + FailoverLines(s, comments);
    Regroup(top, comments(Saturation), lines, PlainBlock(QueueDepth, Decimal(s.queueDepth), comments),
            CompletionLines(s, comments), UsageLines(s, comments));
  }

  lemma OneHostLine(name: string, id: HostId, texts: map<HostId, string>)
    requires id in texts
    ensures HostLines(name, [id], texts) == [HostLine(name, id, texts[id])]
  {
    assert [id][..0] == [];
  }

  lemma PageTextAround(s: Snapshot, comments: Comments, g: HostId, n: int)
    requires OneBadHost(s, g, n) && InjectingId(g, n) in s.saturation
    ensures var text := s.saturation[InjectingId(g, n)];
            JoinLines(PageLines(s, comments)) == JoinLines(Before(s, comments) + BrokenLine(g, n, text) + After(s, comments))
  {
    var text := s.saturation[InjectingId(g, n)];
    var a, b, c, d := Before(s, comments), [HostLine(Name(Saturation), InjectingId(g, n), text)], After(s, comments), BrokenLine(g, n, text);
    PageAround(s, comments, g, n);
    JoinAppend(a + b, c);
    JoinAppend(a, b);
    JoinAppend(a + d, c);
    JoinAppend(a, d);
    LineBreaks(g, n, text);
  }

  lemma BeforeIsLines(s: Snapshot, comments: Comments)
    requires WellFormed(s) && CommentsOk(comments)
    ensures AllOneLine(Before(s, comments))
  {
    var a, b, c := PlainBlock(Availability, s.availability, comments), PlainBlock(P95, s.p95, comments), FailoverLines(s, comments);
    PlainIsLines(Availability, s.availability, comments);
    PlainIsLines(P95, s.p95, comments);
    if s.failoverRate.Some? {
      PlainIsLines(FailoverRate, s.failoverRate.value, comments);
    }
    LinesAppend(a, b);
    LinesAppend(a + b, c);
    EachIsOneLine(comments(Saturation));
    LinesAppend(a + b + c, comments(Saturation));
  }

  lemma AfterIsLines(s: Snapshot, comments: Comments)
    requires WellFormed(s) && AllFit(s.statsHosts) && AllFit(s.usageHosts) && CommentsOk(comments)
    ensures AllOneLine(After(s, comments))
  {
    var a, b := PlainBlock(QueueDepth, Decimal(s.queueDepth), comments), CompletionLines(s, comments);
    DecimalReadsBack(s.queueDepth);
    PlainIsLines(QueueDepth, Decimal(s.queueDepth), comments);
    StatsAreLines(FAMILIES, s, comments);
    LinesAppend(a, b);
    UsagePrints(s);
    BlockIsLines(Usage, s.usageHosts, UsageColumn(s.usage), comments);
    LinesAppend(a + b, UsageLines(s, comments));
  }

  /** The lines that follow leave a token usage cell of a host without usage as it is. */
  lemma AfterKeepsCell(p: Parsed, s: Snapshot, comments: Comments, r: Reader, g: HostId)
    requires WellFormed(s) && AllFit(s.statsHosts) && AllFit(s.usageHosts) && CommentsOk(comments) && g !in s.usage
    ensures WholeIn(ReadAll(p, After(s, comments), r), Usage, g) == WholeIn(p, Usage, g)
  {
    var a, b := PlainBlock(QueueDepth, Decimal(s.queueDepth), comments), CompletionLines(s, comments);
    var p1 := ReadAll(p, a, r);
    var p2 := ReadAll(p1, b, r);
    DecimalReadsBack(s.queueDepth);
    PlainReads(p, QueueDepth, Decimal(s.queueDepth), comments, r);
    ReadAppend(p, a, b, r);
    ReadAppend(p, a + b, UsageLines(s, comments), r);
    StatsKeepUsage(p1, s, comments, r, g);
    UsagePrints(s);
    BlockReads(p2, Usage, s.usageHosts, UsageColumn(s.usage), comments, r);
    UsageFilled(p2, s, r, Usage, g);
  }

  lemma FamiliesKeepUsage(p: Parsed, families: seq<Metric>, s: Snapshot, comments: Comments, r: Reader, g: HostId)
    requires WellFormed(s) && AllFit(s.statsHosts) && CommentsOk(comments) && Usage !in families
    requires forall i :: 0 <= i < |families| ==> families[i] in FAMILIES
    ensures WholeIn(ReadAll(p, StatsLines(families, s, comments), r), Usage, g) == WholeIn(p, Usage, g)
  {
    StatsRead(p, families, s, comments, r, Usage, g);
    NoUsageAmong(s, g, families, WholeIn(p, Usage, g));
  }

  lemma StatsKeepUsage(p: Parsed, s: Snapshot, comments: Comments, r: Reader, g: HostId)
    requires WellFormed(s) && AllFit(s.statsHosts) && CommentsOk(comments)
    ensures WholeIn(ReadAll(p, CompletionLines(s, comments), r), Usage, g) == WholeIn(p, Usage, g)
  {
    FamiliesAreFigures(Usage);
    if s.statsHosts != [] {
      FamiliesKeepUsage(p, FAMILIES, s, comments, r, g);
    }
  }

  lemma {:induction false} NoUsageAmong(s: Snapshot, g: HostId, families: seq<Metric>, before: Option<int>)
    requires Usage !in families
    ensures WholeFromAll(s, Usage, g, families, before) == before
  {
    if families != [] {
      NoUsageAmong(s, g, families[..|families| - 1], before);
    }
  }

  lemma InjectedLines(s: Snapshot, comments: Comments, g: HostId, n: int)
    requires OneBadHost(s, g, n) && InjectingId(g, n) in s.saturation && Fit(g) && CommentsOk(comments)
    ensures SplitLines(JoinLines(PageLines(s, comments))) ==
            Before(s, comments) + BrokenLine(g, n, s.saturation[InjectingId(g, n)]) + After(s, comments)
  {
    var text := s.saturation[InjectingId(g, n)];
    var a, d, c := Before(s, comments), BrokenLine(g, n, text), After(s, comments);
    PageTextAround(s, comments, g, n);
    BeforeIsLines(s, comments);
    BrokenLineIsLines(g, n, text);
    AfterIsLines(s, comments);
    LinesAppend(a, d);
    LinesAppend(a + d, c);
    EachIsOneLine(a + d + c);
    SplitUndoesJoin(a + d + c);
  }

  lemma InjectedCell(s: Snapshot, comments: Comments, r: Reader, g: HostId, n: int, text: string)
    requires WellFormed(s) && AllFit(s.statsHosts) && AllFit(s.usageHosts) && Fit(g) && g !in s.usage && CommentsOk(comments)
    ensures WholeIn(ReadAll(EMPTY, Before(s, comments) + BrokenLine(g, n, text) + After(s, comments), r), Usage, g) == Some(Double(n))
  {
    var a, d, c := Before(s, comments), BrokenLine(g, n, text), After(s, comments);
    var p := ReadAll(EMPTY, a, r);
    ReadAppend(EMPTY, a + d, c, r);
    ReadAppend(EMPTY, a, d, r);
    BrokenLineReads(p, g, n, text, r);
    AfterKeepsCell(ReadAll(p, d, r), s, comments, r, g);
  }

  lemma CellNobodyRecorded(p: Parsed, s: Snapshot, r: Reader, g: HostId)
    requires g !in s.usage && WholeIn(p, Usage, g).Some?
    ensures !ReadsBack(p, s, r)
  {
    assert !CellReadsBack(p, s, r, Usage, g);
  }

  /** A registered host without figures, but with a line break in its id, makes the page show a
      token usage that nobody recorded, although every id with figures is fit. */
  lemma LineBreakInjectsUsage(s: Snapshot, comments: Comments, r: Reader, g: HostId, n: int)
    requires OneBadHost(s, g, n) && Fit(g) && g !in s.usage && CommentsOk(comments)
    ensures AllFit(s.statsHosts) && AllFit(s.usageHosts)
    ensures var p := ParseText(JoinLines(PageLines(s, comments)), r);
            WholeIn(p, Usage, g) == Some(Double(n)) && !ReadsBack(p, s, r)
  {
    assert InjectingId(g, n) in s.saturationHosts;
    InjectedLines(s, comments, g, n);
    InjectedCell(s, comments, r, g, n, s.saturation[InjectingId(g, n)]);
    CellNobodyRecorded(ParseText(JoinLines(PageLines(s, comments)), r), s, r, g);
  }
}
