/** The backend adapters' retry loop (backends/lmstudio.py, backends/llamaserver.py). What each
    attempt meets is an input; everything from the lines on is the adapter's own. */
module Backend {
  import opened Basics

  datatype Usage = Usage(promptTokens: int, completionTokens: int)

  /** Content is None when the backend sends an explicit null. */
  datatype Chunk = Chunk(content: Option<string>, finishReason: Option<string>, usage: Option<Usage>)

  /** A received line: one that is no data line, the end mark, undecodable data, or decoded data
      with the first of its choices. */
  datatype Line = Noise | Done | Undecodable | Data(choice: Option<Choice>, usage: Option<Usage>)

  datatype Choice = Choice(content: Option<string>, finishReason: Option<string>)

  datatype Ending = Finished | TimedOut | Dropped

  datatype Attempt = NoResponse(timedOut: bool) | Answered(status: int, lines: seq<Line>, ending: Ending)

  datatype Outcome = Completed | TimeoutError | ConnectionError | ResponseError(status: int) | DecodeError

  // ---------------------------------------------------------------- what one attempt amounts to

  predicate Accepted(status: int) { 200 <= status < 300 }

  function ChunkOf(line: Line): seq<Chunk> {
    match line
    case Data(Some(choice), usage) => [Chunk(choice.content, choice.finishReason, usage)]
    case Data(None, Some(usage)) => [Chunk(Some(""), None, Some(usage))]
    case _ => []
  }

  /** Chunks up to the first end mark or undecodable line. */
  function ChunksIn(lines: seq<Line>): seq<Chunk> {
    if lines == [] || lines[0].Done? || lines[0].Undecodable? then []
    else ChunkOf(lines[0]) + ChunksIn(lines[1..])
  }

  function Stop(lines: seq<Line>): Option<Outcome> {
    if lines == [] then None
    else if lines[0].Done? then Some(Completed)
    else if lines[0].Undecodable? then Some(DecodeError)
    else Stop(lines[1..])
  }

  function ChunksOf(attempt: Attempt): seq<Chunk> {
    if attempt.Answered? && Accepted(attempt.status) then ChunksIn(attempt.lines) else []
  }

  /** The connection failed, other than by a timeout, before the attempt was over. */
  predicate FailsInTransport(attempt: Attempt) {
    match attempt
    case NoResponse(timedOut) => !timedOut
    case Answered(status, lines, ending) => ending == Dropped && (Accepted(status) ==> Stop(lines).None?)
  }

  function OutcomeOf(attempt: Attempt): Outcome {
    if FailsInTransport(attempt) then ConnectionError
    else if attempt.NoResponse? then TimeoutError
    else if Accepted(attempt.status) && Stop(attempt.lines).Some? then Stop(attempt.lines).value
    else if attempt.ending == TimedOut then TimeoutError
    else if Accepted(attempt.status) then Completed
    else ResponseError(attempt.status)
  }

  predicate Retried(attempt: Attempt) {
    FailsInTransport(attempt) && ChunksOf(attempt) == []
  }

  // ---------------------------------------------------------------- the loop

  datatype Delivery = Delivery(chunks: seq<Chunk>, outcome: Outcome, requests: nat)

  /** All chunks come from the last attempt sent; every earlier one failed in transport without a
      chunk; the loop stops short of its limit only at an attempt that is not of that kind. */
  ghost predicate Delivers(maxRetries: int, fate: nat -> Attempt, d: Delivery) {
    && d.requests <= Max(0, maxRetries + 1)
    && (forall i: nat :: i < d.requests - 1 ==> Retried(fate(i)))
    && (d.requests < Max(0, maxRetries + 1) ==> d.requests > 0 && !Retried(fate(d.requests - 1)))
    && if d.requests == 0 then d.chunks == [] && d.outcome == ConnectionError
       else d.chunks == ChunksOf(fate(d.requests - 1)) && d.outcome == OutcomeOf(fate(d.requests - 1))
  }

  /** Reads lines until the end mark, undecodable data or the end of what arrived. */
  method ReadLines(lines: seq<Line>) returns (chunks: seq<Chunk>, stop: Option<Outcome>)
    ensures chunks == ChunksIn(lines) && stop == Stop(lines)
  {
    chunks, stop := [], None;
    var rest := lines;
    while rest != []
      invariant chunks + ChunksIn(rest) == ChunksIn(lines)
      invariant Stop(rest) == Stop(lines)
    {
      var line := rest[0];
      if line.Done? {
        return chunks, Some(Completed);
      }
      if line.Undecodable? {
        return chunks, Some(DecodeError);
      }
      var added: seq<Chunk> := [];
      if line.Data? {
        if line.choice.Some? {
          added := [Chunk(line.choice.value.content, line.choice.value.finishReason, line.usage)];
        } else if line.usage.Some? {
          added := [Chunk(Some(""), None, line.usage)];
        }
      }
      assert added == ChunkOf(line);
      Regroup(chunks, added, ChunksIn(rest[1..]));
      chunks := chunks + added;
      rest := rest[1..];
    }
  }

  lemma Regroup<T>(a: seq<T>, b: seq<T>, c: seq<T>)
    ensures a + (b + c) == (a + b) + c
  {
  }

  method StreamChunks(maxRetries: int, fate: nat -> Attempt) returns (d: Delivery)
    ensures Delivers(maxRetries, fate, d)
  {
    var attempts := maxRetries + 1;
    var n := 0;
    while n < attempts
      invariant 0 <= n <= Max(0, attempts)
      invariant forall i: nat :: i < n ==> Retried(fate(i))
    {
      var attempt := fate(n);
      n := n + 1;
      match attempt {
        case NoResponse(timedOut) =>
          if timedOut {
            return Delivery([], TimeoutError, n);
          }
        case Answered(status, lines, ending) =>
          if !Accepted(status) {
            if ending != Dropped {
              return Delivery([], if ending == TimedOut then TimeoutError else ResponseError(status), n);
            }
          } else {
            var chunks, stop := ReadLines(lines);
            if stop.Some? {
              return Delivery(chunks, stop.value, n);
            }
            match ending {
              case Finished => return Delivery(chunks, Completed, n);
              case TimedOut => return Delivery(chunks, TimeoutError, n);
              case Dropped =>
                if chunks != [] {
                  return Delivery(chunks, ConnectionError, n);
                }
            }
          }
      }
    }
    return Delivery([], ConnectionError, n);
  }

  // ---------------------------------------------------------------- what it means for the caller

  /** The caller sees exactly what the first attempt that is not a bare connection failure did, as
      if it had been the only one. */
  lemma RetryIsTransparent(maxRetries: int, fate: nat -> Attempt, first: nat, d: Delivery)
    requires first <= maxRetries && !Retried(fate(first)) && forall i: nat :: i < first ==> Retried(fate(i))
    ensures Delivers(maxRetries, fate, d) <==> d == Delivery(ChunksOf(fate(first)), OutcomeOf(fate(first)), first + 1)
  {
    assert Delivers(maxRetries, fate, d) && first < d.requests - 1 ==> Retried(fate(first));
    if 0 < d.requests <= first {
      assert Retried(fate(d.requests - 1));
    }
  }

  /** When every allowed attempt is a bare connection failure the caller gets no chunk and an error. */
  lemma AllFailed(maxRetries: int, fate: nat -> Attempt, d: Delivery)
    requires forall i: nat :: i <= maxRetries ==> Retried(fate(i))
    ensures Delivers(maxRetries, fate, d) <==> d == Delivery([], ConnectionError, Max(0, maxRetries + 1))
  {
    assert Delivers(maxRetries, fate, d) && 0 < d.requests <= maxRetries + 1 ==> Retried(fate(d.requests - 1));
  }

  /** A timeout or a refused status whose body arrives ends the loop: nothing is sent after it. */
  lemma NothingAfterATimeoutOrRefusal(maxRetries: int, fate: nat -> Attempt, d: Delivery, i: nat)
    requires Delivers(maxRetries, fate, d) && i < d.requests
    requires OutcomeOf(fate(i)).TimeoutError? || OutcomeOf(fate(i)).ResponseError?
    ensures i == d.requests - 1 && d.outcome == OutcomeOf(fate(i))
  {
    assert i < d.requests - 1 ==> Retried(fate(i));
  }

  // ---------------------------------------------------------------- what an attempt amounts to

  /** Line k is the first one that ends the reading: an end mark or undecodable data. */
  ghost predicate EndsAt(lines: seq<Line>, k: nat) {
    k < |lines| && (lines[k].Done? || lines[k].Undecodable?) && forall i :: 0 <= i < k ==> !lines[i].Done? && !lines[i].Undecodable?
  }

  ghost predicate NeverEnds(lines: seq<Line>) { forall i :: 0 <= i < |lines| ==> !lines[i].Done? && !lines[i].Undecodable? }

  /** A line that holds something for the caller: a choice, or at least a usage. */
  predicate Carries(line: Line) { line.Data? && (line.choice.Some? || line.usage.Some?) }

  lemma {:induction false} StopsAtFirstEnd(lines: seq<Line>, k: nat)
    requires EndsAt(lines, k)
    ensures Stop(lines) == Some(if lines[k].Done? then Completed else DecodeError)
    ensures ChunksIn(lines) == [] <==> forall i :: 0 <= i < k ==> !Carries(lines[i])
  {
    if k > 0 {
      assert forall i :: 0 < i <= k ==> lines[i] == lines[1..][i - 1];
      StopsAtFirstEnd(lines[1..], k - 1);
      assert Carries(lines[0]) <==> ChunkOf(lines[0]) != [];
      assert forall i :: 0 <= i < k - 1 ==> lines[1..][i] == lines[i + 1];
    }
  }

  lemma {:induction false} NoEndNoStop(lines: seq<Line>)
    requires NeverEnds(lines)
    ensures Stop(lines).None?
    ensures ChunksIn(lines) == [] <==> forall i :: 0 <= i < |lines| ==> !Carries(lines[i])
  {
    if lines != [] {
      NoEndNoStop(lines[1..]);
      assert Carries(lines[0]) <==> ChunkOf(lines[0]) != [];
      assert forall i :: 0 <= i < |lines| - 1 ==> lines[1..][i] == lines[i + 1];
    }
  }

  /** Lines give chunks in order: a choice its content, reason and the line's usage, a usage alone an
      empty piece of text, anything else nothing. */
  lemma {:induction false} ChunksAddUp(a: seq<Line>, b: seq<Line>)
    requires NeverEnds(a)
    ensures ChunksIn(a + b) == ChunksIn(a) + ChunksIn(b)
  {
    if a == [] {
      assert a + b == b;
    } else {
      ChunksAddUp(a[1..], b);
      assert (a + b)[1..] == a[1..] + b;
      Regroup(ChunkOf(a[0]), ChunksIn(a[1..]), ChunksIn(b));
    }
  }

  lemma LineGives(line: Line, choice: Choice, usage: Option<Usage>)
    ensures line == Data(Some(choice), usage) ==> ChunksIn([line]) == [Chunk(choice.content, choice.finishReason, usage)]
    ensures line == Data(None, usage) && usage.Some? ==> ChunksIn([line]) == [Chunk(Some(""), None, usage)]
    ensures !Carries(line) ==> ChunksIn([line]) == []
  {
    assert [line][1..] == [];
  }

  /** What finishing would mean, unless the connection ends otherwise. */
  function Unless(ending: Ending, finished: Outcome): Outcome {
    if ending == TimedOut then TimeoutError else if ending == Dropped then ConnectionError else finished
  }

  /** Without a response an attempt is a timeout, or a connection failure that is tried again. */
  lemma NoResponseOutcome(timedOut: bool)
    ensures ChunksOf(NoResponse(timedOut)) == []
    ensures OutcomeOf(NoResponse(timedOut)) == (if timedOut then TimeoutError else ConnectionError)
    ensures Retried(NoResponse(timedOut)) <==> !timedOut
  {
  }

  /** A status outside the two hundreds gives no chunk; it is the outcome unless its body times out
      or the connection fails, and only the latter is tried again. */
  lemma RefusedOutcome(status: int, lines: seq<Line>, ending: Ending)
    requires status / 100 != 2
    ensures var attempt := Answered(status, lines, ending);
            && ChunksOf(attempt) == []
            && (OutcomeOf(attempt) == Unless(ending, ResponseError(status)))
            && (Retried(attempt) <==> ending == Dropped)
  {
  }

  /** A status in the two hundreds whose lines reach an end mark completes, at undecodable data it
      fails, whatever the connection does afterwards; it is not tried again. */
  lemma EndedOutcome(status: int, lines: seq<Line>, ending: Ending, k: nat)
    requires status / 100 == 2 && EndsAt(lines, k)
    ensures var attempt := Answered(status, lines, ending);
            OutcomeOf(attempt) == (if lines[k].Done? then Completed else DecodeError) && !Retried(attempt)
  {
    StopsAtFirstEnd(lines, k);
  }

  /** Without either the connection decides; a failure before anything was carried is tried again. */
  lemma UnendedOutcome(status: int, lines: seq<Line>, ending: Ending)
    requires status / 100 == 2 && NeverEnds(lines)
    ensures var attempt := Answered(status, lines, ending);
            && (OutcomeOf(attempt) == Unless(ending, Completed))
            && (Retried(attempt) <==> ending == Dropped && forall i :: 0 <= i < |lines| ==> !Carries(lines[i]))
  {
    NoEndNoStop(lines);
  }
}
