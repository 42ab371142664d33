/** The two response modes read the same chunks: one collects a whole completion
    (backends/lmstudio.py, backends/llamaserver.py), the other forwards deltas (api/app.py). */
module ResponseModes {
  import opened Backend
  import opened Basics
  import opened Text

  datatype Completion = Completion(content: string, finishReason: string, usage: Usage)

  datatype Delta = Delta(content: string, finishReason: Option<string>)

  // ---------------------------------------------------------------- specification

  function TextOf(chunk: Chunk): string { if chunk.content.Some? then chunk.content.value else "" }

  function Joined(chunks: seq<Chunk>): string {
    if chunks == [] then [] else Joined(chunks[..|chunks| - 1]) + TextOf(chunks[|chunks| - 1])
  }

  function LastReason(chunks: seq<Chunk>): Option<string> {
    if chunks == [] then None
    else if chunks[|chunks| - 1].finishReason.Some? then chunks[|chunks| - 1].finishReason
    else LastReason(chunks[..|chunks| - 1])
  }

  function LastUsage(chunks: seq<Chunk>): Option<Usage> {
    if chunks == [] then None
    else if chunks[|chunks| - 1].usage.Some? then chunks[|chunks| - 1].usage
    else LastUsage(chunks[..|chunks| - 1])
  }

  predicate HasNull(chunks: seq<Chunk>) {
    chunks != [] && (chunks[|chunks| - 1].content.None? || HasNull(chunks[..|chunks| - 1]))
  }

  predicate SomeReason(chunks: seq<Chunk>) {
    exists i :: 0 <= i < |chunks| && chunks[i].finishReason.Some?
  }

  /** Every piece of content is whitespace or nothing. */
  predicate AllBlank(chunks: seq<Chunk>) {
    chunks == [] || (Blank(TextOf(chunks[|chunks| - 1])) && AllBlank(chunks[..|chunks| - 1]))
  }

  function Contents(deltas: seq<Delta>): string {
    if deltas == [] then [] else Contents(deltas[..|deltas| - 1]) + deltas[|deltas| - 1].content
  }

  predicate IsDegenerate(content: string, finishReason: Option<string>) {
    Strip(content) == [] || finishReason != Some("stop")
  }

  // ---------------------------------------------------------------- the two folds

  method Complete(chunks: seq<Chunk>) returns (c: Completion)
    ensures c.content == Joined(chunks)
    ensures c.finishReason == if LastReason(chunks).Some? then LastReason(chunks).value else "stop"
    ensures c.usage == if LastUsage(chunks).Some? then LastUsage(chunks).value else Usage(0, 0)
  {
    var content, finishReason := "", "stop";
    var usage: Option<Usage> := None;
    for i := 0 to |chunks|
      invariant content == Joined(chunks[..i])
      invariant finishReason == if LastReason(chunks[..i]).Some? then LastReason(chunks[..i]).value else "stop"
      invariant usage == LastUsage(chunks[..i])
    {
      assert chunks[..i + 1][..i] == chunks[..i];
      var chunk := chunks[i];
      if chunk.content.Some? {
        content := content + chunk.content.value;
      }
      if chunk.finishReason.Some? {
        finishReason := chunk.finishReason.value;
      }
      if chunk.usage.Some? {
        usage := chunk.usage;
      }
    }
    assert chunks[..|chunks|] == chunks;
    return Completion(content, finishReason, if usage.Some? then usage.value else Usage(0, 0));
  }

  datatype StreamState = StreamState(deltas: seq<Delta>, usage: Option<Usage>, sawContent: bool, lastReason: Option<string>)

  /** What the streaming loop holds after the chunks seen so far. */
  ghost predicate Streamed(state: StreamState, seen: seq<Chunk>) {
    && !HasNull(seen) && Contents(state.deltas) == Joined(seen)
    && state.sawContent == !AllBlank(seen)
    && state.lastReason == LastReason(seen) && state.usage == LastUsage(seen)
  }

  lemma ContentsOfMore(deltas: seq<Delta>, delta: Delta)
    ensures Contents(deltas + [delta]) == Contents(deltas) + delta.content
  {
    assert (deltas + [delta])[..|deltas|] == deltas;
  }

  method Forward(state: StreamState, chunk: Chunk, ghost seen: seq<Chunk>) returns (next: StreamState)
    requires Streamed(state, seen) && chunk.content.Some?
    ensures Streamed(next, seen + [chunk])
  {
    assert (seen + [chunk])[..|seen|] == seen;
    next := state;
    if chunk.usage.Some? {
      next := next.(usage := chunk.usage);
    }
    StripEmptyIffBlank(chunk.content.value);
    if Strip(chunk.content.value) != [] {
      next := next.(sawContent := true);
    }
    if chunk.finishReason.Some? {
      next := next.(lastReason := chunk.finishReason);
    }
    if chunk.content.value != "" || chunk.finishReason.Some? {
      var delta := Delta(chunk.content.value, chunk.finishReason);
      ContentsOfMore(next.deltas, delta);
      next := next.(deltas := next.deltas + [delta]);
    }
  }

  /** The streaming handler: the deltas it forwards, the usage it records, and its verdict; a null
      content makes it fail there and then, without a verdict. */
  method Stream(chunks: seq<Chunk>) returns (deltas: seq<Delta>, usage: Option<Usage>, verdict: Option<bool>)
    ensures verdict.None? <==> HasNull(chunks)
    ensures !HasNull(chunks) ==> Contents(deltas) == Joined(chunks) && usage == LastUsage(chunks)
    ensures !HasNull(chunks) ==> verdict == Some(StreamVerdict(chunks))
  {
    var state := StreamState([], None, false, None);
    for i := 0 to |chunks|
      invariant Streamed(state, chunks[..i])
    {
      assert chunks[..i + 1] == chunks[..i] + [chunks[i]] && chunks[..i + 1][..i] == chunks[..i];
      if chunks[i].content.None? {
        NullStays(chunks, i + 1);
        return state.deltas, state.usage, None;
      }
      state := Forward(state, chunks[i], chunks[..i]);
    }
    assert chunks[..|chunks|] == chunks;
    return state.deltas, state.usage, Some(state.sawContent && state.lastReason == Some("stop"));
  }

  lemma {:induction false} NullStays(chunks: seq<Chunk>, n: nat)
    requires n <= |chunks| && HasNull(chunks[..n])
    ensures HasNull(chunks)
  {
    if n < |chunks| {
      assert chunks[..|chunks| - 1][..n] == chunks[..n];
      NullStays(chunks[..|chunks| - 1], n);
    } else {
      assert chunks[..n] == chunks;
    }
  }

  // ---------------------------------------------------------------- the verdicts

  /** The verdict on a collected completion. */
  predicate CompleteVerdict(chunks: seq<Chunk>) {
    !IsDegenerate(Joined(chunks), if LastReason(chunks).Some? then LastReason(chunks) else Some("stop"))
  }

  predicate StreamVerdict(chunks: seq<Chunk>) {
    !AllBlank(chunks) && LastReason(chunks) == Some("stop")
  }

  lemma {:induction false} ReasonKnown(chunks: seq<Chunk>)
    ensures LastReason(chunks).Some? <==> SomeReason(chunks)
  {
    if chunks != [] {
      var n := |chunks| - 1;
      ReasonKnown(chunks[..n]);
      if SomeReason(chunks) && chunks[n].finishReason.None? {
        var i :| 0 <= i < |chunks| && chunks[i].finishReason.Some?;
        assert chunks[..n][i] == chunks[i];
      }
      if SomeReason(chunks[..n]) {
        var i :| 0 <= i < n && chunks[..n][i].finishReason.Some?;
        assert chunks[i].finishReason.Some?;
      }
    }
  }

  /** The joined text is whitespace exactly when every piece is, wherever the pieces are cut. */
  lemma {:induction false} JoinedBlank(chunks: seq<Chunk>)
    ensures Blank(Joined(chunks)) <==> AllBlank(chunks)
  {
    if chunks != [] {
      var n := |chunks| - 1;
      JoinedBlank(chunks[..n]);
      BlankAppend(Joined(chunks[..n]), TextOf(chunks[n]));
    }
  }

  lemma BlankAppend(a: string, b: string)
    ensures Blank(a + b) <==> Blank(a) && Blank(b)
  {
    assert forall i :: 0 <= i < |a| ==> (a + b)[i] == a[i];
    assert forall i :: 0 <= i < |b| ==> (a + b)[|a| + i] == b[i];
  }

  /** The modes agree exactly when some chunk carries a finish reason or there is no text at all:
      the whole completion takes a missing reason for "stop", the stream does not. */
  lemma VerdictsAgreeExactlyWhen(chunks: seq<Chunk>)
    ensures CompleteVerdict(chunks) == StreamVerdict(chunks) <==> SomeReason(chunks) || AllBlank(chunks)
  {
    ReasonKnown(chunks);
    JoinedBlank(chunks);
    StripEmptyIffBlank(Joined(chunks));
  }

  /** A text with no finish reason: healthy when collected, unhealthy when streamed. */
  lemma MissingReasonSplitsTheModes()
    ensures var chunks := [Chunk(Some("hi"), None, None)];
            CompleteVerdict(chunks) && !StreamVerdict(chunks)
  {
    var chunks: seq<Chunk> := [Chunk(Some("hi"), None, None)];
    VerdictsAgreeExactlyWhen(chunks);
    assert !Blank(chunks[0].content.value) by {
      assert !IsSpace("hi"[0]);
    }
    ReasonKnown(chunks);
  }

  /** The last chunk that gives a reason gives this one. */
  ghost predicate EndsWithReason(chunks: seq<Chunk>, reason: string) {
    exists i :: 0 <= i < |chunks| && chunks[i].finishReason == Some(reason) && forall j :: i < j < |chunks| ==> chunks[j].finishReason.None?
  }

  /** Some chunk holds more than whitespace. */
  ghost predicate SomeText(chunks: seq<Chunk>) { exists i :: 0 <= i < |chunks| && !Blank(TextOf(chunks[i])) }

  lemma {:induction false} LastReasonIsLast(chunks: seq<Chunk>, reason: string)
    ensures LastReason(chunks) == Some(reason) <==> EndsWithReason(chunks, reason)
  {
    if chunks != [] {
      var n := |chunks| - 1;
      LastReasonIsLast(chunks[..n], reason);
      if chunks[n].finishReason.None? {
        ReasonUnchanged(chunks, n, reason);
      } else if EndsWithReason(chunks, reason) {
        var i :| 0 <= i < |chunks| && chunks[i].finishReason == Some(reason) && forall j :: i < j < |chunks| ==> chunks[j].finishReason.None?;
        assert i == n;
      }
    }
  }

  lemma ReasonUnchanged(chunks: seq<Chunk>, n: nat, reason: string)
    requires |chunks| == n + 1 && chunks[n].finishReason.None?
    ensures EndsWithReason(chunks, reason) <==> EndsWithReason(chunks[..n], reason)
  {
    if EndsWithReason(chunks, reason) {
      var i :| 0 <= i < |chunks| && chunks[i].finishReason == Some(reason) && forall j :: i < j < |chunks| ==> chunks[j].finishReason.None?;
      assert chunks[..n][i].finishReason == Some(reason);
    }
    if EndsWithReason(chunks[..n], reason) {
      var i :| 0 <= i < n && chunks[..n][i].finishReason == Some(reason) && forall j :: i < j < n ==> chunks[..n][j].finishReason.None?;
      assert chunks[i].finishReason == Some(reason);
      assert forall j :: i < j < n ==> chunks[j] == chunks[..n][j];
    }
  }

  lemma SomeTextOfMore(chunks: seq<Chunk>, n: nat)
    requires |chunks| == n + 1
    ensures SomeText(chunks) <==> SomeText(chunks[..n]) || !Blank(TextOf(chunks[n]))
  {
    if SomeText(chunks[..n]) {
      var i :| 0 <= i < n && !Blank(TextOf(chunks[..n][i]));
      assert !Blank(TextOf(chunks[i]));
    }
    if i :| 0 <= i < n && !Blank(TextOf(chunks[i])) {
      assert !Blank(TextOf(chunks[..n][i]));
    }
  }

  lemma {:induction false} TextKnown(chunks: seq<Chunk>)
    ensures AllBlank(chunks) <==> !SomeText(chunks)
  {
    if chunks != [] {
      TextKnown(chunks[..|chunks| - 1]);
      SomeTextOfMore(chunks, |chunks| - 1);
    }
  }

  /** The text of a response is its pieces put together, a null piece adding nothing. */
  lemma {:induction false} JoinedIsTogether(chunks: seq<Chunk>, pieces: seq<string>)
    requires |pieces| == |chunks|
    requires forall i :: 0 <= i < |chunks| ==> pieces[i] == if chunks[i].content.Some? then chunks[i].content.value else ""
    ensures Joined(chunks) == Together(pieces)
  {
    if chunks != [] {
      JoinedIsTogether(chunks[..|chunks| - 1], pieces[..|pieces| - 1]);
    }
  }

  /** The usage of a response is that of the last chunk that has one. */
  lemma {:induction false} LastUsageIsLast(chunks: seq<Chunk>)
    ensures LastUsage(chunks).None? ==> forall i :: 0 <= i < |chunks| ==> chunks[i].usage.None?
    ensures LastUsage(chunks).Some? ==>
              exists i :: 0 <= i < |chunks| && chunks[i].usage == LastUsage(chunks) && forall j :: i < j < |chunks| ==> chunks[j].usage.None?
  {
    if chunks != [] {
      var n := |chunks| - 1;
      LastUsageIsLast(chunks[..n]);
      if chunks[n].usage.None? {
        assert forall i :: 0 <= i < n ==> chunks[..n][i] == chunks[i];
        if LastUsage(chunks[..n]).Some? {
          var i :| 0 <= i < n && chunks[..n][i].usage == LastUsage(chunks[..n]) && forall j :: i < j < n ==> chunks[..n][j].usage.None?;
          assert chunks[i].usage == LastUsage(chunks);
        }
      }
    }
  }

  /** A response is healthy when it holds more than whitespace and its last reason is "stop"; a
      collected one also when no chunk gives a reason. */
  lemma VerdictsMean(chunks: seq<Chunk>)
    ensures StreamVerdict(chunks) <==> SomeText(chunks) && EndsWithReason(chunks, "stop")
    ensures CompleteVerdict(chunks) <==> SomeText(chunks) && (EndsWithReason(chunks, "stop") || !SomeReason(chunks))
  {
    TextKnown(chunks);
    LastReasonIsLast(chunks, "stop");
    ReasonKnown(chunks);
    JoinedBlank(chunks);
    StripEmptyIffBlank(Joined(chunks));
  }

  /** Both modes, run on the same chunks. */
  method Compare(chunks: seq<Chunk>) returns (agree: bool)
    ensures agree <==> !HasNull(chunks) && (SomeReason(chunks) || AllBlank(chunks))
  {
    var c := Complete(chunks);
    var _, _, verdict := Stream(chunks);
    ReasonKnown(chunks);
    VerdictsAgreeExactlyWhen(chunks);
    agree := verdict == Some(!IsDegenerate(c.content, Some(c.finishReason)));
  }
}
