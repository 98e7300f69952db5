/** One streaming request at the model gateway (src/bin/viper-model-gateway.rs): numbered frames on the
    connection, ending in exactly one done frame. */
module Gateway {
  import opened Outcomes
  import opened Text
  import opened Streaming

  const IPC_VERSION := "1.0"

  datatype Request = Request(version: string, requestId: string, prompt: Option<string>)

  /** `streaming` is whether the configuration has a `[stream]` section. */
  datatype Config = Config(streaming: bool, maxPromptChars: nat)

  datatype Error = Error(code: string, message: string)

  datatype Frame = Frame(requestId: string, sequence: nat, delta: string, done: bool, error: Option<Error>)

  /** How a transport's `generate_stream` went: its callbacks and its result. */
  datatype Call = Call(chunks: seq<Chunk>, outcome: Outcome)

  /** The prompt limit counts UTF-8 bytes, although its name and message speak of characters. */
  function ValidatePrompt(prompt: string, maxPromptChars: nat): Outcome {
    if Trim(prompt) == "" then Failed("ERR_MODEL_PROMPT_INVALID", "prompt is empty")
    else if Utf8Length(prompt) > maxPromptChars then Failed("ERR_MODEL_PROMPT_INVALID", "prompt is too long")
    else Completed
  }

  /** The test that the limit's name and message speak of. */
  predicate WithinCharacters(prompt: string, maxPromptChars: nat) {
    Trim(prompt) != "" && |prompt| <= maxPromptChars
  }

  /** For a prompt the two tests agree whatever the limit exactly if it is blank or ASCII; in any other case the
      bytes are more, and a limit of just its characters refuses it. */
  lemma LimitCountsBytes(prompt: string)
    ensures (forall max: nat :: ValidatePrompt(prompt, max).Completed? <==> WithinCharacters(prompt, max))
            <==> Trim(prompt) == "" || IsAscii(prompt)
    ensures Trim(prompt) != "" && !IsAscii(prompt) ==>
              WithinCharacters(prompt, |prompt|) && ValidatePrompt(prompt, |prompt|).Failed?
  {
    AsciiLength(prompt);
    assert ValidatePrompt(prompt, |prompt|).Completed? <==> Trim(prompt) != "" && Utf8Length(prompt) <= |prompt|;
  }

  /** One character, a limit of one. */
  lemma OneCharacterRefused()
    ensures WithinCharacters("é", 1) && ValidatePrompt("é", 1).Failed?
  {
    assert !IsSpace('é');
    LimitCountsBytes("é");
    assert "é"[0] as int >= 0x80;
  }

  /** The free function `generate_stream`: a refused prompt never reaches the transport. */
  function GenerateStream(prompt: string, maxPromptChars: nat, transport: Call): Call {
    if ValidatePrompt(prompt, maxPromptChars).Failed? then Call([], ValidatePrompt(prompt, maxPromptChars))
    else transport
  }

  /** The error a request is refused with before any model call, if it is. */
  function EarlyExit(request: Request, config: Config, remaining: nat): Option<Error> {
    if request.version != IPC_VERSION then Some(Error("ERR_UNSUPPORTED_SCHEMA", "unsupported gateway version"))
    else if remaining == 0 then Some(Error("ERR_REQUEST_LIMIT_EXCEEDED", "model request budget exhausted"))
    else if !config.streaming then Some(Error("ERR_NOT_IMPLEMENTED", "streaming is not configured"))
    else if request.prompt.None? then Some(Error("ERR_INVALID_REQUEST", "MODEL_GENERATE requires params.prompt"))
    else None
  }

  /** The whole exchange: what is called, and how it ends. */
  function Exchange(request: Request, config: Config, remaining: nat, transport: Call): Call {
    match EarlyExit(request, config, remaining)
    case Some(error) => Call([], Failed(error.code, error.message))
    case None => GenerateStream(request.prompt.value, config.maxPromptChars, transport)
  }

  /** What is left of the budget: every request of the right version takes a unit, even one that is refused later. */
  function BudgetAfter(request: Request, remaining: nat): nat {
    if request.version == IPC_VERSION && remaining > 0 then remaining - 1 else remaining
  }

  function ChunkFrames(requestId: string, chunks: seq<Chunk>): seq<Frame> {
    seq(|chunks|, i requires 0 <= i < |chunks| => Frame(requestId, i, chunks[i].delta, chunks[i].done, None))
  }

  function ErrorFrame(requestId: string, sequence: nat, code: string, message: string): Frame {
    Frame(requestId, sequence, "", true, Some(Error(code, message)))
  }

  /** The frames of an exchange when every write succeeds. */
  function Frames(requestId: string, call: Call): seq<Frame> {
    ChunkFrames(requestId, call.chunks)
    + match call.outcome
      case Completed => []
      case Failed(code, message) => [ErrorFrame(requestId, |call.chunks|, code, message)]
  }

  /** The frames that reach the connection, write `k` being the first of them. */
  function Written(frames: seq<Frame>, writes: nat -> bool): seq<Frame> {
    if frames == [] then []
    else
      var last := |frames| - 1;
      Written(frames[..last], writes) + if writes(last) then [frames[last]] else []
  }

  ghost predicate AllWritten(n: nat, writes: nat -> bool) {
    forall k: nat :: k < n ==> writes(k)
  }

  lemma {:induction false} WrittenInFull(frames: seq<Frame>, writes: nat -> bool)
    requires AllWritten(|frames|, writes)
    ensures Written(frames, writes) == frames
  {
    if frames != [] {
      WrittenInFull(frames[..|frames| - 1], writes);
    }
  }

  lemma OneMoreWrite(frames: seq<Frame>, frame: Frame, writes: nat -> bool)
    ensures Written(frames + [frame], writes) == Written(frames, writes) + if writes(|frames|) then [frame] else []
    ensures (frames + [frame])[..|frames|] == frames
    ensures AllWritten(|frames| + 1, writes) <==> AllWritten(|frames|, writes) && writes(|frames|)
  {
    assert (frames + [frame])[..|frames|] == frames;
  }

  // ---- the frames of one request ----

  /** Numbered 0, 1, ..., n; done exactly at the last; an error exactly when the call failed, there. */
  ghost predicate WellFramed(requestId: string, frames: seq<Frame>, failed: bool) {
    && frames != []
    && (forall i :: 0 <= i < |frames| ==>
          && frames[i].requestId == requestId
          && frames[i].sequence == i
          && (frames[i].done <==> i == |frames| - 1)
          && (frames[i].error.Some? <==> failed && i == |frames| - 1))
  }

  lemma FramesAreWellFramed(requestId: string, call: Call)
    requires WellBehaved(call.chunks, call.outcome)
    ensures WellFramed(requestId, Frames(requestId, call), call.outcome.Failed?)
  {
  }

  lemma ExchangeBehaves(request: Request, config: Config, remaining: nat, transport: Call)
    requires WellBehaved(transport.chunks, transport.outcome)
    ensures var call := Exchange(request, config, remaining, transport); WellBehaved(call.chunks, call.outcome)
  {
  }

  function FrameDeltas(frames: seq<Frame>): seq<string> {
    if frames == [] then []
    else (if frames[0].error.None? then [frames[0].delta] else []) + FrameDeltas(frames[1..])
  }

  lemma {:induction false} FramesCarryTexts(frames: seq<Frame>, chunks: seq<Chunk>)
    requires |frames| == |chunks|
    requires forall i :: 0 <= i < |chunks| ==> frames[i].delta == chunks[i].delta && frames[i].error.None?
    ensures FrameDeltas(frames) == Texts(chunks)
  {
    if chunks != [] {
      FramesCarryTexts(frames[1..], chunks[1..]);
    }
  }

  lemma {:induction false} DeltasThenError(frames: seq<Frame>, e: Frame)
    requires e.error.Some?
    ensures FrameDeltas(frames + [e]) == FrameDeltas(frames)
  {
    if frames == [] {
      assert [e][1..] == [];
    } else {
      DeltasThenError(frames[1..], e);
      assert (frames + [e])[1..] == frames[1..] + [e];
    }
  }

  lemma FramesCarryDeltas(requestId: string, call: Call)
    ensures FrameDeltas(Frames(requestId, call)) == Texts(call.chunks)
  {
    var chunkFrames := ChunkFrames(requestId, call.chunks);
    FramesCarryTexts(chunkFrames, call.chunks);
    match call.outcome
    case Completed => assert chunkFrames + [] == chunkFrames;
    case Failed(code, message) => DeltasThenError(chunkFrames, ErrorFrame(requestId, |call.chunks|, code, message));
  }

  /** For every request, configuration, budget, provider, response and schedule: the frames are numbered,
      end in their only done frame, carry an error exactly when the exchange failed, and their deltas are
      a prefix of what the provider's lines denote, or all of it when the exchange completes. */
  lemma EveryExchangeIsWellFramed(request: Request, config: Config, remaining: nat,
                                  t: Transport, d: Decoder, response: Response, moves: seq<Move>)
    requires Run(SourceOf(t, d, response), moves).consumer.Returned?
    ensures var p := Run(SourceOf(t, d, response), moves);
            var call := Exchange(request, config, remaining, Call(p.calls, p.consumer.outcome));
            var frames := Frames(request.requestId, call);
            && WellFramed(request.requestId, frames, call.outcome.Failed?)
            && FrameDeltas(frames) <= Denoted(SourceOf(t, d, response))
            && (call.outcome.Completed? ==> FrameDeltas(frames) == Denoted(SourceOf(t, d, response)))
  {
    var source := SourceOf(t, d, response);
    var p := Run(source, moves);
    var call := Exchange(request, config, remaining, Call(p.calls, p.consumer.outcome));
    DeliveredDeltas(source, moves);
    ExchangeBehaves(request, config, remaining, Call(p.calls, p.consumer.outcome));
    FramesAreWellFramed(request.requestId, call);
    FramesCarryDeltas(request.requestId, call);
  }

  // ---- the gateway itself ----

  class ModelGateway {
    const config: Config
    var remaining: nat
    var wire: seq<Frame>

    constructor (config: Config, maxRequests: nat)
      ensures this.config == config && remaining == maxRequests && wire == []
    {
      this.config := config;
      remaining := maxRequests;
      wire := [];
    }

    /** Write `k` of the connection; a failed one leaves no frame. */
    method WriteFrame(frame: Frame, k: nat, writes: nat -> bool) returns (ok: bool)
      modifies this`wire
      ensures ok == writes(k)
      ensures wire == old(wire) + if writes(k) then [frame] else []
    {
      ok := writes(k);
      if ok {
        wire := wire + [frame];
      }
    }

    /** The callback of `generate_stream`, for each chunk in turn; it goes on after a failed write. */
    method WriteChunks(requestId: string, chunks: seq<Chunk>, writes: nat -> bool) returns (ok: bool)
      modifies this`wire
      ensures ok <==> AllWritten(|chunks|, writes)
      ensures wire == old(wire) + Written(ChunkFrames(requestId, chunks), writes)
    {
      ghost var frames := ChunkFrames(requestId, chunks);
      ok := true;
      for sequence := 0 to |chunks|
        invariant ok <==> AllWritten(sequence, writes)
        invariant wire == old(wire) + Written(frames[..sequence], writes)
      {
        var frame := Frame(requestId, sequence, chunks[sequence].delta, chunks[sequence].done, None);
        var written := WriteFrame(frame, sequence, writes);
        assert frames[..sequence + 1][..sequence] == frames[..sequence] && frames[sequence] == frame;
        assert AllWritten(sequence + 1, writes) <==> AllWritten(sequence, writes) && writes(sequence);
        ok := ok && written;
      }
      assert frames[..|chunks|] == frames;
    }

    /** The model call's chunks, then its error frame unless a write has failed. */
    method WriteCall(requestId: string, call: Call, writes: nat -> bool) returns (ok: bool)
      modifies this`wire
      ensures ok <==> AllWritten(|Frames(requestId, call)|, writes)
      ensures wire == old(wire) + Reached(requestId, call, writes)
    {
      ok := WriteChunks(requestId, call.chunks, writes);
      ReachedParts(requestId, call, writes);
      if ok && call.outcome.Failed? {
        var sequence := |call.chunks|;
        ok := WriteFrame(ErrorFrame(requestId, sequence, call.outcome.code, call.outcome.message), sequence, writes);
      }
    }

    /** The checks, the budget and the model call: `transport` is how that would go. A call uses up one unit of
        the budget even when it is refused later on. */
    method Ask(request: Request, transport: Call) returns (call: Call)
      modifies this`remaining
      ensures remaining == BudgetAfter(request, old(remaining))
      ensures call == Exchange(request, config, old(remaining), transport)
    {
      var refused := EarlyExit(request, config, remaining);
      if request.version == IPC_VERSION && remaining > 0 {
        remaining := remaining - 1;
      }
      if refused.Some? {
        return Call([], Failed(refused.value.code, refused.value.message));
      }
      call := GenerateStream(request.prompt.value, config.maxPromptChars, transport);
    }

    /** `serve_stream`: `writes(k)` is whether the k-th write succeeds. A failed write does not stop the callbacks,
        but it makes the result an error and suppresses the error frame. */
    method ServeStream(request: Request, transport: Call, writes: nat -> bool) returns (ok: bool)
      modifies this`remaining, this`wire
      ensures remaining == BudgetAfter(request, old(remaining))
      ensures var call := Exchange(request, config, old(remaining), transport);
              && (ok <==> AllWritten(|Frames(request.requestId, call)|, writes))
              && wire == old(wire) + Reached(request.requestId, call, writes)
    {
      var call := Ask(request, transport);
      ok := WriteCall(request.requestId, call, writes);
    }
  }

  /** What an exchange leaves on the connection. */
  ghost function Reached(requestId: string, call: Call, writes: nat -> bool): seq<Frame> {
    var frames := Frames(requestId, call);
    if AllWritten(|call.chunks|, writes) then Written(frames, writes)
    else Written(frames[..|call.chunks|], writes)
  }

  /** The chunks reach the connection as far as their writes go; then, if all of those went, the error frame. */
  lemma ReachedParts(requestId: string, call: Call, writes: nat -> bool)
    ensures var n, chunkFrames := |call.chunks|, ChunkFrames(requestId, call.chunks);
            var sent, reached := Written(chunkFrames, writes), Reached(requestId, call, writes);
            var whole := AllWritten(|Frames(requestId, call)|, writes);
            match call.outcome
            case Completed => reached == sent && (whole <==> AllWritten(n, writes))
            case Failed(code, message) =>
              && (!AllWritten(n, writes) ==> reached == sent && !whole)
              && (AllWritten(n, writes) && writes(n) ==> reached == sent + [ErrorFrame(requestId, n, code, message)])
              && (AllWritten(n, writes) && !writes(n) ==> reached == sent)
              && (AllWritten(n, writes) ==> (whole <==> writes(n)))
  {
    FramesSplit(requestId, call, writes);
    var sent := Written(ChunkFrames(requestId, call.chunks), writes);
    assert sent + [] == sent;
  }

  /** When every write succeeds, that is all its frames. */
  lemma ReachedInFull(requestId: string, call: Call, writes: nat -> bool)
    requires AllWritten(|Frames(requestId, call)|, writes)
    ensures Reached(requestId, call, writes) == Frames(requestId, call)
  {
    WrittenInFull(Frames(requestId, call), writes);
  }

  /** Which writes of an exchange are attempted, and what they leave on the connection. */
  lemma FramesSplit(requestId: string, call: Call, writes: nat -> bool)
    ensures var n := |call.chunks|; var frames := Frames(requestId, call);
            && frames[..n] == ChunkFrames(requestId, call.chunks)
            && (AllWritten(n, writes) ==> Written(frames[..n], writes) == frames[..n])
            && (call.outcome.Failed? ==>
                  && |frames| == n + 1
                  && (AllWritten(n + 1, writes) <==> AllWritten(n, writes) && writes(n))
                  && Written(frames, writes) == Written(frames[..n], writes) + if writes(n) then [frames[n]] else [])
            && (call.outcome.Completed? ==> frames == frames[..n])
  {
    var n, front := |call.chunks|, ChunkFrames(requestId, call.chunks);
    if AllWritten(n, writes) {
      WrittenInFull(front, writes);
    }
    if call.outcome.Failed? {
      OneMoreWrite(front, ErrorFrame(requestId, n, call.outcome.code, call.outcome.message), writes);
    } else {
      assert front + [] == front;
    }
  }
}
