/** Reading a rendered metrics page gives back its queue depth, its latency figure and every
    per-host family. */
module MetricsRoundTrip {
  import opened Basics
  import opened Decimals
  import opened MetricsText
  import opened Text
  import opened TextLines

  // ---------------------------------------------------------------- which lines match which pattern

  predicate IsNameChar(c: char) { 'a' <= c <= 'z' || '0' <= c <= '9' || c == '_' }

  predicate CleanName(s: string) { s != [] && forall i :: 0 <= i < |s| ==> IsNameChar(s[i]) }

  lemma RequestNamesAreClean(m: Metric)
    requires m.Availability? || m.P95? || m.FailoverRate?
    ensures CleanName(Name(m))
  {
  }

  lemma HostNamesAreClean(m: Metric)
    requires m.Saturation? || m.QueueDepth?
    ensures CleanName(Name(m))
  {
  }

  lemma TotalNamesAreClean(m: Metric)
    requires m.CompletionsTotal? || m.LatencyAvg?
    ensures CleanName(Name(m))
  {
  }

  lemma PromptNamesAreClean(m: Metric)
    requires m.PromptAvg? || m.PromptMin? || m.PromptMax?
    ensures CleanName(Name(m))
  {
  }

  lemma CompletionNamesAreClean(m: Metric)
    requires m.CompletionAvg? || m.CompletionMin? || m.CompletionMax? || m.Usage?
    ensures CleanName(Name(m))
  {
  }

  lemma NamesAreClean(m: Metric)
    ensures CleanName(Name(m))
  {
    match m
    case Availability => RequestNamesAreClean(m);
    case P95 => RequestNamesAreClean(m);
    case FailoverRate => RequestNamesAreClean(m);
    case Saturation => HostNamesAreClean(m);
    case QueueDepth => HostNamesAreClean(m);
    case CompletionsTotal => TotalNamesAreClean(m);
    case LatencyAvg => TotalNamesAreClean(m);
    case CompletionAvg => CompletionNamesAreClean(m);
    case CompletionMin => CompletionNamesAreClean(m);
    case CompletionMax => CompletionNamesAreClean(m);
    case Usage => CompletionNamesAreClean(m);
    case _ => PromptNamesAreClean(m);
  }

  lemma NamesDiffer(a: Metric, b: Metric)
    requires Name(a) == Name(b)
    ensures a == b
  {
  }

  /** A host id the pattern accepts: not empty, no quote, within one line. */
  predicate Fit(id: HostId) {
    id != [] && OneLine(id) && forall i :: 0 <= i < |id| ==> id[i] != '"'
  }

  lemma ValueMatches(text: string)
    requires IsWord(text)
    ensures MatchValue(" " + text) == Some(text)
  {
    assert (" " + text)[0] == ' ' && (" " + text)[1..] == text;
    assert StripLeft(text) == text;
  }

  lemma PlainMatches(name: string, text: string)
    requires IsWord(text)
    ensures MatchPlain(name, PlainLine(name, text)) == Some(text)
  {
    ValueMatches(text);
    assert PlainLine(name, text)[|name|..] == " " + text;
  }

  lemma PrefixCompared(other: string, name: string, rest: string)
    requires other <= name + rest && rest != []
    ensures |other| > |name| ==> other[|name|] == rest[0]
    ensures |other| < |name| ==> (name + rest)[|other|..][0] == name[|other|]
    ensures |other| == |name| ==> other == name && (name + rest)[|other|..] == rest
  {
    var line := name + rest;
    assert line[|name|] == rest[0] && other == line[..|other|];
    assert |other| == |name| ==> line[..|other|] == name && line[|other|..] == rest;
    assert |other| > |name| ==> other[|name|] == line[|name|];
  }

  /** A plain pattern takes only a line of its own name followed by whitespace. */
  lemma PlainNeedsOwnName(other: string, name: string, rest: string)
    requires CleanName(other) && CleanName(name) && rest != [] && (rest[0] == ' ' || rest[0] == '{')
    ensures MatchPlain(other, name + rest).Some? ==> other == name && rest[0] == ' '
  {
    if other <= name + rest {
      PrefixCompared(other, name, rest);
    }
  }

  /** A per-host pattern takes only a line of its own name followed by a brace. */
  lemma HostNeedsOwnName(other: string, name: string, rest: string)
    requires CleanName(other) && CleanName(name) && rest != [] && (rest[0] == ' ' || rest[0] == '{')
    ensures MatchHost(other, name + rest).Some? ==> other == name && rest[0] == '{'
  {
    var line, head := name + rest, other + "{host_id=\"";
    if head <= line {
      assert line[|other|] == head[|other|] == '{';
      assert other == head[..|other|] == line[..|other|];
      PrefixCompared(other, name, rest);
    }
  }

  lemma {:induction false} QuoteFound(id: string, rest: string)
    requires forall i :: 0 <= i < |id| ==> id[i] != '"'
    ensures QuoteAt(id + "\"" + rest) == |id|
  {
    var s := id + "\"" + rest;
    if id != [] {
      assert s[1..] == id[1..] + "\"" + rest;
      QuoteFound(id[1..], rest);
    }
  }

  lemma HostLineParts(name: string, id: HostId, text: string)
    ensures var head, rest := name + "{host_id=\"", id + "\"" + ("} " + text);
            && HostLine(name, id, text) == head + rest
            && head <= HostLine(name, id, text) && HostLine(name, id, text)[|head|..] == rest
  {
    var head, rest := name + "{host_id=\"", id + "\"" + ("} " + text);
    assert HostLine(name, id, text) == head + rest;
  }

  lemma RestParts(id: HostId, text: string)
    ensures var rest := id + "\"" + ("} " + text);
            |id| + 1 < |rest| && rest[..|id|] == id && rest[|id| + 1] == '}' && rest[|id| + 2..] == " " + text
  {
  }

  lemma HostMatches(name: string, id: HostId, text: string)
    requires Fit(id) && IsWord(text)
    ensures MatchHost(name, HostLine(name, id, text)) == Some((id, text))
  {
    HostLineParts(name, id, text);
    RestParts(id, text);
    QuoteFound(id, "} " + text);
    ValueMatches(text);
  }

  lemma NotSkipped(name: string, rest: string)
    requires CleanName(name)
    ensures !Skipped(name + rest)
  {
    StripEmptyIffBlank(name + rest);
    assert (name + rest)[0] == name[0];
  }

  // ---------------------------------------------------------------- one line

  lemma {:induction false} NoFamilyFits(p: Parsed, families: seq<Metric>, m: Metric, text: string, r: Reader)
    ensures PutFirst(p, families, PlainLine(Name(m), text), r) == p
  {
    if families != [] {
      PlainIsOwn(families[0], m, text);
      NoFamilyFits(p, families[1..], m, text, r);
    }
  }

  lemma PlainStep(p: Parsed, m: Metric, text: string, r: Reader)
    requires IsWord(text)
    ensures Step(p, PlainLine(Name(m), text), r) ==
            if m == QueueDepth then p.(queueDepth := AsInt(r, text)) else if m == P95 then p.(p95 := AsFloat(r, text)) else p
  {
    var rest := " " + text;
    var line := PlainLine(Name(m), text);
    assert line == Name(m) + rest;
    NamesAreClean(m);
    NotSkipped(Name(m), rest);
    PlainMatches(Name(m), text);
    PlainIsOwn(QueueDepth, m, text);
    PlainIsOwn(P95, m, text);
    NoFamilyFits(p, [Usage] + FAMILIES, m, text, r);
  }

  lemma PlainIsOwn(other: Metric, m: Metric, text: string)
    ensures MatchPlain(Name(other), PlainLine(Name(m), text)).Some? ==> other == m
    ensures MatchHost(Name(other), PlainLine(Name(m), text)).None?
  {
    assert PlainLine(Name(m), text) == Name(m) + (" " + text);
    NamesAreClean(other);
    NamesAreClean(m);
    PlainNeedsOwnName(Name(other), Name(m), " " + text);
    HostNeedsOwnName(Name(other), Name(m), " " + text);
    if Name(other) == Name(m) {
      NamesDiffer(other, m);
    }
  }

  lemma {:induction false} OwnFamilyFits(p: Parsed, families: seq<Metric>, m: Metric, id: HostId, text: string, r: Reader)
    requires Fit(id) && IsWord(text)
    ensures PutFirst(p, families, HostLine(Name(m), id, text), r) == if m in families then Put(p, m, id, text, r) else p
  {
    if families != [] {
      var line, rest := HostLine(Name(m), id, text), "{host_id=\"" + id + "\"} " + text;
      assert line == Name(m) + rest;
      NamesAreClean(m);
      NamesAreClean(families[0]);
      HostNeedsOwnName(Name(families[0]), Name(m), rest);
      if families[0] == m {
        HostMatches(Name(m), id, text);
      } else {
        if Name(families[0]) == Name(m) {
          NamesDiffer(families[0], m);
        }
        OwnFamilyFits(p, families[1..], m, id, text, r);
      }
    }
  }

  function HostRest(id: HostId, text: string): string { "{host_id=\"" + id + "\"} " + text }

  lemma HostLineIsNameAndRest(name: string, id: HostId, text: string)
    ensures HostLine(name, id, text) == name + HostRest(id, text) && HostRest(id, text) != [] && HostRest(id, text)[0] == '{'
  {
    assert HostLine(name, id, text) == name + ("{host_id=\"" + id + "\"} " + text);
  }

  lemma BraceIsNotPlain(other: Metric, m: Metric, rest: string)
    requires rest != [] && rest[0] == '{'
    ensures MatchPlain(Name(other), Name(m) + rest).None? && !Skipped(Name(m) + rest)
  {
    NamesAreClean(m);
    NamesAreClean(other);
    NotSkipped(Name(m), rest);
    PlainNeedsOwnName(Name(other), Name(m), rest);
  }

  lemma HostIsNotPlain(other: Metric, m: Metric, id: HostId, text: string)
    ensures MatchPlain(Name(other), HostLine(Name(m), id, text)).None? && !Skipped(HostLine(Name(m), id, text))
  {
    HostLineIsNameAndRest(Name(m), id, text);
    BraceIsNotPlain(other, m, HostRest(id, text));
  }

  lemma FiguresAreTried(m: Metric)
    requires IsWhole(m) || IsAverage(m)
    ensures m in [Usage] + FAMILIES
  {
    assert ([Usage] + FAMILIES)[0] == Usage && ([Usage] + FAMILIES)[1..] == FAMILIES;
    assert FAMILIES[0] == CompletionsTotal && FAMILIES[1] == LatencyAvg && FAMILIES[2] == PromptAvg && FAMILIES[3] == PromptMin;
    assert FAMILIES[4] == PromptMax && FAMILIES[5] == CompletionAvg && FAMILIES[6] == CompletionMin && FAMILIES[7] == CompletionMax;
  }

  lemma HostStep(p: Parsed, m: Metric, id: HostId, text: string, r: Reader)
    requires Fit(id) && IsWord(text)
    ensures Step(p, HostLine(Name(m), id, text), r) == Put(p, m, id, text, r)
  {
    HostIsNotPlain(QueueDepth, m, id, text);
    HostIsNotPlain(P95, m, id, text);
    OwnFamilyFits(p, [Usage] + FAMILIES, m, id, text, r);
    if IsWhole(m) || IsAverage(m) {
      FiguresAreTried(m);
    }
  }

  lemma {:induction false} NoFamilyIsSaturation(p: Parsed, families: seq<Metric>, rest: string, r: Reader)
    requires rest != [] && rest[0] == '{' && Saturation !in families
    ensures PutFirst(p, families, Name(Saturation) + rest, r) == p
  {
    if families != [] {
      NamesAreClean(families[0]);
      NamesAreClean(Saturation);
      HostNeedsOwnName(Name(families[0]), Name(Saturation), rest);
      if Name(families[0]) == Name(Saturation) {
        NamesDiffer(families[0], Saturation);
      }
      NoFamilyIsSaturation(p, families[1..], rest, r);
    }
  }

  lemma SaturationIsNotTried()
    ensures Saturation !in [Usage] + FAMILIES
  {
    assert FAMILIES == [CompletionsTotal, LatencyAvg, PromptAvg, PromptMin, PromptMax, CompletionAvg, CompletionMin, CompletionMax];
  }

  /** A line that starts like one of the saturation family is skipped, whatever follows the brace. */
  lemma SaturationStep(p: Parsed, rest: string, r: Reader)
    requires rest != [] && rest[0] == '{'
    ensures Step(p, Name(Saturation) + rest, r) == p
  {
    NamesAreClean(Saturation);
    NamesAreClean(QueueDepth);
    NamesAreClean(P95);
    PlainNeedsOwnName(Name(QueueDepth), Name(Saturation), rest);
    PlainNeedsOwnName(Name(P95), Name(Saturation), rest);
    SaturationIsNotTried();
    NoFamilyIsSaturation(p, [Usage] + FAMILIES, rest, r);
  }

  // ---------------------------------------------------------------- blocks of lines

  lemma {:induction false} ReadAppend(p: Parsed, a: seq<string>, b: seq<string>, r: Reader)
    ensures ReadAll(p, a + b, r) == ReadAll(ReadAll(p, a, r), b, r)
    decreases |b|
  {
    if b == [] {
      assert a + b == a;
    } else {
      ReadAppend(p, a, b[..|b| - 1], r);
      assert (a + b)[..|a + b| - 1] == a + b[..|b| - 1];
    }
  }

  lemma OneStep(p: Parsed, line: string, r: Reader)
    ensures ReadAll(p, [line], r) == Step(p, line, r)
  {
    assert [line][..0] == [];
  }

  ghost predicate CommentsOk(comments: Comments) {
    forall m, i :: 0 <= i < |comments(m)| ==> comments(m)[i] != [] && comments(m)[i][0] == '#' && OneLine(comments(m)[i])
  }

  lemma {:induction false} CommentsRead(p: Parsed, lines: seq<string>, r: Reader)
    requires forall i :: 0 <= i < |lines| ==> lines[i] != [] && lines[i][0] == '#'
    ensures ReadAll(p, lines, r) == p
    decreases |lines|
  {
    if lines != [] {
      CommentsRead(p, lines[..|lines| - 1], r);
    }
  }

  lemma PlainReads(p: Parsed, m: Metric, text: string, comments: Comments, r: Reader)
    requires IsWord(text) && CommentsOk(comments)
    ensures ReadAll(p, PlainBlock(m, text, comments), r) ==
            if m == QueueDepth then p.(queueDepth := AsInt(r, text)) else if m == P95 then p.(p95 := AsFloat(r, text)) else p
  {
    ReadAppend(p, comments(m), [PlainLine(Name(m), text)], r);
    CommentsRead(p, comments(m), r);
    OneStep(p, PlainLine(Name(m), text), r);
    PlainStep(p, m, text, r);
  }

  /** One family's lines, put in one after the other. */
  function PutAll(p: Parsed, m: Metric, hosts: seq<HostId>, texts: map<HostId, string>, r: Reader): Parsed
    requires forall h :: h in hosts ==> h in texts
    decreases |hosts|
  {
    if hosts == [] then p
    else
      var h := hosts[|hosts| - 1];
      Put(PutAll(p, m, hosts[..|hosts| - 1], texts, r), m, h, texts[h], r)
  }

  ghost predicate Printable(hosts: seq<HostId>, texts: map<HostId, string>) {
    forall h :: h in hosts ==> h in texts && Fit(h) && IsWord(texts[h])
  }

  lemma {:induction false} HostLinesRead(p: Parsed, m: Metric, hosts: seq<HostId>, texts: map<HostId, string>, r: Reader)
    requires Printable(hosts, texts)
    ensures ReadAll(p, HostLines(Name(m), hosts, texts), r) == PutAll(p, m, hosts, texts, r)
  {
    if hosts != [] {
      var init, h := hosts[..|hosts| - 1], hosts[|hosts| - 1];
      var lines := HostLines(Name(m), init, texts);
      HostLinesRead(p, m, init, texts, r);
      ReadAppend(p, lines, [HostLine(Name(m), h, texts[h])], r);
      OneStep(ReadAll(p, lines, r), HostLine(Name(m), h, texts[h]), r);
      HostStep(ReadAll(p, lines, r), m, h, texts[h], r);
    }
  }

  lemma BlockReads(p: Parsed, m: Metric, hosts: seq<HostId>, texts: map<HostId, string>, comments: Comments, r: Reader)
    requires Printable(hosts, texts) && CommentsOk(comments)
    ensures ReadAll(p, HostBlock(m, hosts, texts, comments), r) == PutAll(p, m, hosts, texts, r)
  {
    ReadAppend(p, comments(m), HostLines(Name(m), hosts, texts), r);
    CommentsRead(p, comments(m), r);
    HostLinesRead(p, m, hosts, texts, r);
  }

  // ---------------------------------------------------------------- one cell at a time

  function WholeIn(p: Parsed, m: Metric, h: HostId): Option<int> {
    if (m, h) in p.wholes then Some(p.wholes[(m, h)]) else None
  }

  function AverageIn(p: Parsed, m: Metric, h: HostId): Option<string> {
    if (m, h) in p.averages then Some(p.averages[(m, h)]) else None
  }

  /** The integer that one value leaves in a cell. */
  function WholeLeft(m: Metric, text: string, r: Reader, before: Option<int>): Option<int> {
    if IsWhole(m) && AsInt(r, text).Some? then AsInt(r, text) else before
  }

  function AverageLeft(m: Metric, text: string, r: Reader, before: Option<string>): Option<string> {
    if IsAverage(m) && AsFloat(r, text).Some? then Some(text) else before
  }

  lemma PutWhole(p: Parsed, n: Metric, id: HostId, text: string, r: Reader, m: Metric, h: HostId)
    ensures WholeIn(Put(p, n, id, text, r), m, h) == if m == n && h == id then WholeLeft(m, text, r, WholeIn(p, m, h)) else WholeIn(p, m, h)
  {
    var q := Put(p, n, id, text, r);
    if (m, h) == (n, id) {
      assert IsWhole(n) && AsInt(r, text).Some? ==> q.wholes[(n, id)] == AsInt(r, text).value;
    } else {
      assert (m, h) in q.wholes <==> (m, h) in p.wholes;
    }
  }

  lemma PutAverage(p: Parsed, n: Metric, id: HostId, text: string, r: Reader, m: Metric, h: HostId)
    ensures AverageIn(Put(p, n, id, text, r), m, h) == if m == n && h == id then AverageLeft(m, text, r, AverageIn(p, m, h)) else AverageIn(p, m, h)
  {
    var q := Put(p, n, id, text, r);
    if (m, h) == (n, id) {
      assert IsAverage(n) && AsFloat(r, text).Some? ==> q.averages[(n, id)] == text;
    } else {
      assert (m, h) in q.averages <==> (m, h) in p.averages;
    }
  }

  lemma {:induction false} PlainFiguresKept(p: Parsed, n: Metric, hosts: seq<HostId>, texts: map<HostId, string>, r: Reader)
    requires forall g :: g in hosts ==> g in texts
    ensures var q := PutAll(p, n, hosts, texts, r); q.queueDepth == p.queueDepth && q.p95 == p.p95
  {
    if hosts != [] {
      PlainFiguresKept(p, n, hosts[..|hosts| - 1], texts, r);
    }
  }

  /** A family's lines fill exactly that family's cells. */
  lemma {:induction false} WholesFilled(p: Parsed, n: Metric, hosts: seq<HostId>, texts: map<HostId, string>, r: Reader, m: Metric, h: HostId)
    requires forall g :: g in hosts ==> g in texts
    ensures WholeIn(PutAll(p, n, hosts, texts, r), m, h) ==
            if m == n && h in hosts then WholeLeft(m, texts[h], r, WholeIn(p, m, h)) else WholeIn(p, m, h)
  {
    if hosts != [] {
      var init, last := hosts[..|hosts| - 1], hosts[|hosts| - 1];
      WholesFilled(p, n, init, texts, r, m, h);
      PutWhole(PutAll(p, n, init, texts, r), n, last, texts[last], r, m, h);
      assert h in hosts <==> h in init || h == last;
    }
  }

  lemma {:induction false} AveragesFilled(p: Parsed, n: Metric, hosts: seq<HostId>, texts: map<HostId, string>, r: Reader, m: Metric, h: HostId)
    requires forall g :: g in hosts ==> g in texts
    ensures AverageIn(PutAll(p, n, hosts, texts, r), m, h) ==
            if m == n && h in hosts then AverageLeft(m, texts[h], r, AverageIn(p, m, h)) else AverageIn(p, m, h)
  {
    if hosts != [] {
      var init, last := hosts[..|hosts| - 1], hosts[|hosts| - 1];
      AveragesFilled(p, n, init, texts, r, m, h);
      PutAverage(PutAll(p, n, init, texts, r), n, last, texts[last], r, m, h);
      assert h in hosts <==> h in init || h == last;
    }
  }
}
