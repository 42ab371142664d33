/** Ownership of a slot by a streaming response (api/lifetime.py): the slot goes back exactly
    once, after the chunks have been closed, however the stream is driven to its end. */
module Lifetime {
  import opened Basics

  /** One step of the underlying generator: a chunk, its end, or an error or cancellation. */
  datatype Step = Chunk(text: string) | End | Raise

  /** What a caller of the stream observes. */
  datatype Outcome = Yielded(text: string) | Stopped | Raised

  datatype Effect = ChunksClosed | SlotReleased

  /** The async generator behind a stream. Its steps are given; after an end, an error or a
      close it only ever ends. */
  class ChunkSource {
    var steps: seq<Step>
    var closeRaises: bool

    constructor (steps: seq<Step>, closeRaises: bool)
      ensures this.steps == steps && this.closeRaises == closeRaises
    {
      this.steps, this.closeRaises := steps, closeRaises;
    }

    method Next() returns (step: Step)
      modifies this`steps
      ensures step == if old(steps) == [] then End else old(steps)[0]
      ensures steps == if step.Chunk? then old(steps)[1..] else []
    {
      if steps == [] {
        return End;
      }
      step := steps[0];
      steps := if step.Chunk? then steps[1..] else [];
    }

    method Close() returns (raised: bool)
      modifies this`steps
      ensures steps == [] && raised == closeRaises
    {
      steps := [];
      raised := closeRaises;
    }
  }

  class SlotStream {
    const chunks: ChunkSource
    var closed: bool
    /** Every close of the chunks and every release of the slot, in order. */
    ghost var effects: seq<Effect>

    /** Before closing nothing has happened; after it, the chunks were closed and then the slot released. */
    ghost predicate Valid()
      reads this
    {
      effects == if closed then [ChunksClosed, SlotReleased] else []
    }

    constructor (chunks: ChunkSource)
      ensures Valid() && !closed && this.chunks == chunks
    {
      this.chunks := chunks;
      closed := false;
      effects := [];
    }

    /** The next chunk; anything else the source does closes the stream first. */
    method Next() returns (outcome: Outcome)
      requires Valid()
      modifies this, chunks
      ensures Valid()
      ensures old(closed) ==> outcome == Stopped && closed
      ensures !old(closed) ==>
                var step := if old(chunks.steps) == [] then End else old(chunks.steps)[0];
                && closed == !step.Chunk?
                && (step.Chunk? ==> outcome == Yielded(step.text))
                && (step.Chunk? ==> chunks.steps == old(chunks.steps)[1..])
                && (!step.Chunk? ==> outcome == if step.Raise? || chunks.closeRaises then Raised else Stopped)
      ensures chunks.closeRaises == old(chunks.closeRaises)
    {
      if closed {
        return Stopped;
      }
      var step := chunks.Next();
      if step.Chunk? {
        return Yielded(step.text);
      }
      var raised := Close();
      return if step.Raise? || raised then Raised else Stopped;
    }

    /** Close the chunks, and release the slot even when closing them fails. */
    method Close() returns (raised: bool)
      requires Valid()
      modifies this, chunks
      ensures Valid() && closed
      ensures raised == (!old(closed) && chunks.closeRaises)
      ensures chunks.closeRaises == old(chunks.closeRaises)
    {
      if closed {
        return false;
      }
      raised := chunks.Close();
      effects := effects + [ChunksClosed];
      closed := true;
      effects := effects + [SlotReleased];
    }
  }

  /** The streaming response: send chunks until the stream stops or raises, or the client goes
      away after `patience` of them; then close. On every path the slot is released exactly once,
      after the chunks are closed, and what was sent is a prefix of what the source produced. */
  method Respond(stream: SlotStream, patience: nat) returns (sent: seq<string>)
    requires stream.Valid() && !stream.closed
    modifies stream, stream.chunks
    ensures stream.Valid() && stream.closed
    ensures stream.effects == [ChunksClosed, SlotReleased]
    ensures |sent| <= |old(stream.chunks.steps)| && |sent| <= patience
    ensures forall i :: 0 <= i < |sent| ==> old(stream.chunks.steps)[i] == Chunk(sent[i])
    ensures |sent| < patience && |sent| < |old(stream.chunks.steps)| ==> !old(stream.chunks.steps)[|sent|].Chunk?
  {
    sent := [];
    ghost var script := stream.chunks.steps;
    while |sent| < patience
      invariant stream.Valid() && !stream.closed
      invariant |sent| <= |script| && |sent| <= patience
      invariant stream.chunks.steps == script[|sent|..]
      invariant forall i :: 0 <= i < |sent| ==> script[i] == Chunk(sent[i])
      decreases patience - |sent|
    {
      var outcome := stream.Next();
      if !outcome.Yielded? {
        break;
      }
      sent := sent + [outcome.text];
    }
    var _ := stream.Close();
  }
}
