/** Context assembly under a token budget (context/assembler.py). */
module Assembly {
  import opened Basics

  datatype Message = Message(role: string, content: string)

  datatype StoredMessage = StoredMessage(seqNo: int, role: string, content: string, createdAt: string)

  datatype Summary = Summary(coversUpToSeq: int, summaryText: string, createdAt: string)

  datatype Session = Session(sessionId: SessionId, messages: seq<StoredMessage>, summary: Option<Summary>)

  datatype AssembledContext = AssembledContext(messages: seq<Message>, compacted: bool, droppedMessageCount: nat)

  function Chars(messages: seq<Message>): nat {
    if messages == [] then 0 else |messages[0].content| + Chars(messages[1..])
  }

  /** Four characters to a token, rounded up over the whole list. */
  function EstimateTokens(messages: seq<Message>): nat { (Chars(messages) + 3) / 4 }

  function SummaryOf(text: string): Message { Message("system", "Summary of earlier conversation: " + text) }

  function SummaryMessage(session: Session): seq<Message> {
    if session.summary.None? then [] else [SummaryOf(session.summary.value.summaryText)]
  }

  function RawMessages(session: Session): (raw: seq<Message>)
    ensures |raw| == |session.messages|
    ensures forall i :: 0 <= i < |raw| ==> raw[i] == Message(session.messages[i].role, session.messages[i].content)
  {
    seq(|session.messages|, i requires 0 <= i < |session.messages| =>
      Message(session.messages[i].role, session.messages[i].content))
  }

  // ---------------------------------------------------------------- specification

  /** The newest n messages. */
  function Last(raw: seq<Message>, n: nat): (last: seq<Message>)
    requires n <= |raw|
    ensures |last| == n
  {
    if n == |raw| then raw else Last(raw[1..], n)
  }

  lemma {:induction false} LastIsSuffix(raw: seq<Message>, n: nat)
    requires n <= |raw|
    ensures Last(raw, n) == raw[|raw| - n..]
  {
    if n < |raw| {
      LastIsSuffix(raw[1..], n);
      assert raw[1..][|raw| - 1 - n..] == raw[|raw| - n..];
    }
  }

  /** The cost of a list when every message is rounded up on its own. */
  function RoundedCost(messages: seq<Message>): nat {
    if messages == [] then 0 else EstimateTokens([messages[0]]) + RoundedCost(messages[1..])
  }

  /** Whether the last n messages may stay: at most one always may, more must fit the budget. */
  predicate Keepable(raw: seq<Message>, n: nat, budget: int)
    requires n <= |raw|
  {
    n <= 1 || RoundedCost(Last(raw, n)) <= budget
  }

  /** The largest keepable number of messages, searching down from n. */
  function MostKeepable(raw: seq<Message>, n: nat, budget: int): (k: nat)
    requires n <= |raw|
    ensures k <= n
  {
    if Keepable(raw, n, budget) then n else MostKeepable(raw, n - 1, budget)
  }

  lemma {:induction false} MostKeepableIsLargest(raw: seq<Message>, n: nat, budget: int)
    requires n <= |raw|
    ensures Keepable(raw, MostKeepable(raw, n, budget), budget)
    ensures forall m :: MostKeepable(raw, n, budget) < m <= n ==> !Keepable(raw, m, budget)
  {
    if !Keepable(raw, n, budget) {
      MostKeepableIsLargest(raw, n - 1, budget);
    }
  }

  /** How many of the newest raw messages stay beside a summary. */
  function KeptOf(summary: seq<Message>, raw: seq<Message>, budget: int): (n: nat)
    ensures n <= |raw|
  {
    if EstimateTokens(summary + raw) <= budget then |raw|
    else MostKeepable(raw, |raw|, budget - EstimateTokens(summary))
  }

  function AssembledFrom(summary: seq<Message>, raw: seq<Message>, budget: int): AssembledContext {
    var n := KeptOf(summary, raw, budget);
    AssembledContext(summary + Last(raw, n), n < |raw|, |raw| - n)
  }

  /** How many of the newest messages an assembled context keeps. */
  function KeptCount(session: Session, budget: int): nat { KeptOf(SummaryMessage(session), RawMessages(session), budget) }

  function Assembled(session: Session, budget: int): AssembledContext {
    AssembledFrom(SummaryMessage(session), RawMessages(session), budget)
  }

  // ---------------------------------------------------------------- implementation

  /** Keep the newest messages while they fit, at least one, and the summary whatever it costs. */
  method AssembleContext(session: Session, tokenBudget: int) returns (context: AssembledContext)
    ensures context == Assembled(session, tokenBudget)
  {
    var summary := SummaryMessage(session);
    var raw := RawMessages(session);
    var full := summary + raw;
    if EstimateTokens(full) <= tokenBudget {
      EverythingFits(session, tokenBudget);
      return AssembledContext(full, false, 0);
    }
    NewestFit(session, tokenBudget);
    context := Compact(summary, raw, tokenBudget);
  }

  method Compact(summary: seq<Message>, raw: seq<Message>, tokenBudget: int) returns (context: AssembledContext)
    ensures var kept := Last(raw, MostKeepable(raw, |raw|, tokenBudget - EstimateTokens(summary)));
            context == AssembledContext(summary + kept, |raw| - |kept| > 0, |raw| - |kept|)
  {
    EstimateOfNone();
    var summaryCost := if summary != [] then EstimateTokens(summary) else 0;
    var kept := KeepNewest(raw, tokenBudget - summaryCost);
    var dropped := |raw| - |kept|;
    return AssembledContext(summary + kept, dropped > 0, dropped);
  }

  lemma EverythingFits(session: Session, budget: int)
    requires EstimateTokens(SummaryMessage(session) + RawMessages(session)) <= budget
    ensures Assembled(session, budget) == AssembledContext(SummaryMessage(session) + RawMessages(session), false, 0)
  {
    var raw := RawMessages(session);
    assert Last(raw, |raw|) == raw;
  }

  lemma NewestFit(session: Session, budget: int)
    requires EstimateTokens(SummaryMessage(session) + RawMessages(session)) > budget
    ensures var raw := RawMessages(session);
            var kept := Last(raw, MostKeepable(raw, |raw|, budget - EstimateTokens(SummaryMessage(session))));
            Assembled(session, budget) == AssembledContext(SummaryMessage(session) + kept, |raw| - |kept| > 0, |raw| - |kept|)
  {
  }

  method KeepNewest(raw: seq<Message>, budget: int) returns (kept: seq<Message>)
    ensures kept == Last(raw, MostKeepable(raw, |raw|, budget))
  {
    kept := [];
    var remaining := budget;
    var i := |raw|;
    while i > 0
      invariant 0 <= i <= |raw| && kept == raw[i..]
      invariant remaining == budget - RoundedCost(kept)
      invariant Keepable(raw, |kept|, budget)
    {
      var message := raw[i - 1];
      var cost := EstimateTokens([message]);
      OneMore(raw, i - 1);
      if kept != [] && cost > remaining {
        NothingMoreFits(raw, |kept|, budget);
        break;
      }
      kept := [message] + kept;
      remaining := remaining - cost;
      i := i - 1;
    }
    MostKeepableIs(raw, |raw|, |kept|, budget);
    LastIsSuffix(raw, |kept|);
  }

  lemma OneMore(raw: seq<Message>, i: nat)
    requires i < |raw|
    ensures raw[i..] == [raw[i]] + raw[i + 1..]
    ensures Last(raw, |raw| - i) == raw[i..] && Last(raw, |raw| - i - 1) == raw[i + 1..]
    ensures RoundedCost(raw[i..]) == EstimateTokens([raw[i]]) + RoundedCost(raw[i + 1..])
  {
    assert raw[i..][1..] == raw[i + 1..];
    LastIsSuffix(raw, |raw| - i);
    LastIsSuffix(raw, |raw| - i - 1);
  }

  lemma EstimateOfNone()
    ensures EstimateTokens([]) == 0
  {
  }

  lemma {:induction false} LongerCostsMore(raw: seq<Message>, n: nat, m: nat)
    requires n <= m <= |raw|
    ensures RoundedCost(Last(raw, n)) <= RoundedCost(Last(raw, m))
  {
    if n < m {
      LongerCostsMore(raw, n, m - 1);
      LastIsSuffix(raw, m);
      LastIsSuffix(raw, m - 1);
      assert Last(raw, m)[1..] == Last(raw, m - 1);
    }
  }

  lemma NothingMoreFits(raw: seq<Message>, n: nat, budget: int)
    requires 0 < n < |raw|
    requires RoundedCost(Last(raw, n + 1)) > budget
    ensures forall m :: n < m <= |raw| ==> !Keepable(raw, m, budget)
  {
    forall m | n < m <= |raw| ensures !Keepable(raw, m, budget) {
      LongerCostsMore(raw, n + 1, m);
    }
  }

  lemma MostKeepableIs(raw: seq<Message>, n: nat, k: nat, budget: int)
    requires k <= n <= |raw| && Keepable(raw, k, budget)
    requires forall m :: k < m <= n ==> !Keepable(raw, m, budget)
    ensures MostKeepable(raw, n, budget) == k
  {
  }

  // ---------------------------------------------------------------- properties of the budget

  lemma {:induction false} CharsConcat(a: seq<Message>, b: seq<Message>)
    ensures Chars(a + b) == Chars(a) + Chars(b)
  {
    if a == [] {
      assert a + b == b;
    } else {
      CharsConcat(a[1..], b);
      assert (a + b)[1..] == a[1..] + b;
    }
  }

  /** Rounding each message up costs at least as much as rounding the whole list up. */
  lemma {:induction false} RoundingIsSubadditive(messages: seq<Message>)
    ensures EstimateTokens(messages) <= RoundedCost(messages)
  {
    if messages != [] {
      RoundingIsSubadditive(messages[1..]);
      assert Chars([messages[0]]) == |messages[0].content| + Chars([]);
    }
  }

  /** The estimate of a result stays within the budget whenever two or more messages are kept. */
  lemma KeptWithinBudget(session: Session, budget: int)
    requires KeptCount(session, budget) >= 2
    ensures EstimateTokens(Assembled(session, budget).messages) <= budget
  {
    var raw, summary := RawMessages(session), SummaryMessage(session);
    var n := KeptCount(session, budget);
    if EstimateTokens(summary + raw) <= budget {
      assert Last(raw, |raw|) == raw;
    } else {
      MostKeepableIsLargest(raw, |raw|, budget - EstimateTokens(summary));
      CharsConcat(summary, Last(raw, n));
      RoundingIsSubadditive(Last(raw, n));
    }
  }

  /** Compaction happens exactly when two or more messages do not fit together with the summary. */
  lemma CompactedExactly(session: Session, budget: int)
    ensures Assembled(session, budget).compacted
            <==> |session.messages| >= 2 && EstimateTokens(SummaryMessage(session) + RawMessages(session)) > budget
  {
    var raw, summary := RawMessages(session), SummaryMessage(session);
    assert Last(raw, |raw|) == raw;
    if |raw| >= 2 && KeptCount(session, budget) == |raw| {
      KeptWithinBudget(session, budget);
    }
  }

  /** No longer suffix fits what the summary leaves of the budget, unless everything is kept. */
  lemma KeptIsLongest(session: Session, budget: int, m: nat)
    requires KeptCount(session, budget) < m <= |session.messages|
    ensures m >= 2 && RoundedCost(Last(RawMessages(session), m)) > budget - EstimateTokens(SummaryMessage(session))
  {
    var raw := RawMessages(session);
    MostKeepableIsLargest(raw, |raw|, budget - EstimateTokens(SummaryMessage(session)));
    assert !Keepable(raw, m, budget - EstimateTokens(SummaryMessage(session)));
  }

  /** A larger budget never keeps fewer messages. */
  lemma KeptGrowsWithBudget(session: Session, budget: int, more: int)
    requires budget <= more
    ensures KeptCount(session, budget) <= KeptCount(session, more)
  {
    var raw, cost := RawMessages(session), EstimateTokens(SummaryMessage(session));
    var n := KeptCount(session, budget);
    MostKeepableIsLargest(raw, |raw|, budget - cost);
    MostKeepableIsLargest(raw, |raw|, more - cost);
    assert n <= 1 || Keepable(raw, n, budget - cost) ==> Keepable(raw, n, more - cost);
  }

  // ---------------------------------------------------------------- the budget in characters

  function ContentsOf(messages: seq<Message>): (texts: seq<string>)
    ensures |texts| == |messages| && forall i :: 0 <= i < |texts| ==> texts[i] == messages[i].content
  {
    seq(|messages|, i requires 0 <= i < |messages| => messages[i].content)
  }

  lemma {:induction false} CharsTogether(messages: seq<Message>)
    ensures Chars(messages) == |Together(ContentsOf(messages))|
  {
    if messages != [] {
      CharsTogether(messages[1..]);
      TogetherFromFront(ContentsOf(messages));
      assert ContentsOf(messages)[1..] == ContentsOf(messages[1..]);
    }
  }

  /** The estimate is the least number of tokens that has room for all characters, four to a token. */
  lemma EstimateInCharacters(messages: seq<Message>, budget: int)
    ensures EstimateTokens(messages) <= budget <==> |Together(ContentsOf(messages))| <= 4 * budget
  {
    CharsTogether(messages);
  }

  /** The newest messages of a session, without their numbers and times. */
  function NewestOf(session: Session, kept: nat): (r: seq<Message>)
    requires kept <= |session.messages|
    ensures |r| == kept
    ensures forall i :: 0 <= i < kept ==>
              var stored := session.messages[|session.messages| - kept + i]; r[i] == Message(stored.role, stored.content)
  {
    seq(kept, i requires 0 <= i < kept =>
      var stored := session.messages[|session.messages| - kept + i]; Message(stored.role, stored.content))
  }

  lemma NewestAreLast(session: Session, kept: nat)
    requires kept <= |session.messages|
    ensures Last(RawMessages(session), kept) == NewestOf(session, kept)
  {
    var raw := RawMessages(session);
    LastIsSuffix(raw, kept);
    forall i | 0 <= i < kept ensures raw[|raw| - kept..][i] == NewestOf(session, kept)[i] {
      assert raw[|raw| - kept..][i] == raw[|raw| - kept + i];
    }
  }

  lemma OneAlwaysStays(summary: seq<Message>, raw: seq<Message>, budget: int)
    ensures raw != [] ==> 1 <= KeptOf(summary, raw, budget)
  {
    MostKeepableIsLargest(raw, |raw|, budget - EstimateTokens(summary));
    assert raw != [] ==> Keepable(raw, 1, budget - EstimateTokens(summary));
  }

  lemma KeptAndDropped(summary: seq<Message>, raw: seq<Message>, budget: int)
    ensures var context := AssembledFrom(summary, raw, budget);
            && context.droppedMessageCount == |raw| - KeptOf(summary, raw, budget)
            && (context.compacted <==> context.droppedMessageCount > 0)
            && context.messages == summary + Last(raw, KeptOf(summary, raw, budget))
  {
  }

  /** An assembled context is the summary in one system message, if there is one, followed by the
      newest messages as they are, one of them always; the others are counted as dropped. */
  lemma ResultIsSummaryAndNewest(session: Session, budget: int, context: AssembledContext)
    requires context == Assembled(session, budget)
    ensures context.droppedMessageCount <= |session.messages| && (context.compacted <==> context.droppedMessageCount > 0)
    ensures session.messages != [] ==> context.droppedMessageCount < |session.messages|
    ensures var newest := NewestOf(session, |session.messages| - context.droppedMessageCount);
            context.messages == if session.summary.None? then newest
                                else [Message("system", "Summary of earlier conversation: " + session.summary.value.summaryText)] + newest
  {
    KeptAndDropped(SummaryMessage(session), RawMessages(session), budget);
    OneAlwaysStays(SummaryMessage(session), RawMessages(session), budget);
    NewestAreLast(session, |session.messages| - context.droppedMessageCount);
  }

  /** With two or more messages kept, the contents of the result have at most four characters for
      every token of the budget. */
  lemma KeptWithinCharacters(session: Session, budget: int)
    requires |session.messages| - Assembled(session, budget).droppedMessageCount >= 2
    ensures |Together(ContentsOf(Assembled(session, budget).messages))| <= 4 * budget
  {
    KeptWithinBudget(session, budget);
    EstimateInCharacters(Assembled(session, budget).messages, budget);
  }

  /** Two or more messages are compacted exactly when all contents together have more than four
      characters for every token of the budget, fewer never. */
  lemma CompactedByCharacters(session: Session, budget: int)
    ensures Assembled(session, budget).compacted
            <==> |session.messages| >= 2 && |Together(ContentsOf(SummaryMessage(session) + RawMessages(session)))| > 4 * budget
  {
    CompactedExactly(session, budget);
    EstimateInCharacters(SummaryMessage(session) + RawMessages(session), budget);
  }

  /** A text of this many tokens: four characters to each, the last perhaps not full. */
  ghost predicate Costs(text: string, tokens: int) { 4 * (tokens - 1) < |text| <= 4 * tokens }

  /** The sum of the last n costs. */
  ghost function LastSum(costs: seq<int>, n: nat): int
    requires n <= |costs|
  {
    if n == 0 then 0 else costs[|costs| - n] + LastSum(costs, n - 1)
  }

  lemma CostOfOne(message: Message, tokens: int)
    requires Costs(message.content, tokens)
    ensures EstimateTokens([message]) == tokens
  {
    assert Chars([message]) == |message.content| + Chars([]);
  }

  lemma {:induction false} RoundedCostIsLastSum(raw: seq<Message>, costs: seq<int>, n: nat)
    requires |raw| == |costs| && n <= |raw| && forall i :: 0 <= i < |raw| ==> Costs(raw[i].content, costs[i])
    ensures RoundedCost(Last(raw, n)) == LastSum(costs, n)
  {
    if n > 0 {
      RoundedCostIsLastSum(raw, costs, n - 1);
      OneMore(raw, |raw| - n);
      CostOfOne(raw[|raw| - n], costs[|costs| - n]);
    } else {
      LastIsSuffix(raw, 0);
    }
  }

  /** The tokens a summary takes of the budget. */
  ghost predicate SummaryCosts(session: Session, tokens: int) {
    if session.summary.None? then tokens == 0
    else Costs("Summary of earlier conversation: " + session.summary.value.summaryText, tokens)
  }

  lemma SummaryCostIs(session: Session, tokens: int)
    requires SummaryCosts(session, tokens)
    ensures EstimateTokens(SummaryMessage(session)) == tokens
  {
    if session.summary.Some? {
      CostOfOne(SummaryOf(session.summary.value.summaryText), tokens);
    }
  }

  /** What is kept of a compacted session is the longest suffix that fits what the summary leaves of
      the budget, every message rounded up to whole tokens on its own, or else its newest message. */
  lemma LongestThatFits(session: Session, budget: int, costs: seq<int>, summaryCost: int)
    requires |costs| == |session.messages| && forall i :: 0 <= i < |costs| ==> Costs(session.messages[i].content, costs[i])
    requires SummaryCosts(session, summaryCost) && Assembled(session, budget).compacted
    ensures var kept := |session.messages| - Assembled(session, budget).droppedMessageCount;
            && 1 <= kept < |session.messages|
            && (kept >= 2 ==> LastSum(costs, kept) <= budget - summaryCost)
            && (forall m :: kept < m <= |session.messages| ==> LastSum(costs, m) > budget - summaryCost)
  {
    var kept := KeptCount(session, budget);
    OneAlwaysStays(SummaryMessage(session), RawMessages(session), budget);
    if kept >= 2 {
      KeptFits(session, budget, costs, summaryCost, kept);
    }
    forall m | kept < m <= |session.messages| ensures LastSum(costs, m) > budget - summaryCost {
      LongerDoesNotFit(session, budget, costs, summaryCost, m);
    }
  }

  lemma KeptFits(session: Session, budget: int, costs: seq<int>, summaryCost: int, kept: nat)
    requires |costs| == |session.messages| && forall i :: 0 <= i < |costs| ==> Costs(session.messages[i].content, costs[i])
    requires SummaryCosts(session, summaryCost) && kept == KeptCount(session, budget) && 2 <= kept < |session.messages|
    ensures LastSum(costs, kept) <= budget - summaryCost
  {
    SummaryCostIs(session, summaryCost);
    ShortenedIs(SummaryMessage(session), RawMessages(session), budget);
    MostKeepableFits(RawMessages(session), |session.messages|, budget - summaryCost, kept);
    RoundedCostIsLastSum(RawMessages(session), costs, kept);
  }

  lemma ShortenedIs(summary: seq<Message>, raw: seq<Message>, budget: int)
    requires KeptOf(summary, raw, budget) < |raw|
    ensures KeptOf(summary, raw, budget) == MostKeepable(raw, |raw|, budget - EstimateTokens(summary))
  {
  }

  lemma {:induction false} MostKeepableFits(raw: seq<Message>, n: nat, budget: int, k: nat)
    requires n <= |raw| && 2 <= k == MostKeepable(raw, n, budget)
    ensures RoundedCost(Last(raw, k)) <= budget
  {
    if !Keepable(raw, n, budget) {
      MostKeepableFits(raw, n - 1, budget, k);
    }
  }

  lemma LongerDoesNotFit(session: Session, budget: int, costs: seq<int>, summaryCost: int, m: nat)
    requires |costs| == |session.messages| && forall i :: 0 <= i < |costs| ==> Costs(session.messages[i].content, costs[i])
    requires SummaryCosts(session, summaryCost) && KeptCount(session, budget) < m <= |session.messages|
    ensures LastSum(costs, m) > budget - summaryCost
  {
    SummaryCostIs(session, summaryCost);
    RoundedCostIsLastSum(RawMessages(session), costs, m);
    KeptIsLongest(session, budget, m);
  }
}
