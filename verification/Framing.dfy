/** Frames as capped lines of bytes (src/ipc.rs): the gateway writes one encoded frame per line, the client
    reads lines of at most MAX_LINE_BYTES and dispatches frames until a done one. */
module Framing {
  import opened Bytes
  import opened Streaming
  import opened Gateway

  const MAX_LINE_BYTES: nat := 1024 * 1024

  /** What the client makes of one line: `read_line` fails on invalid UTF-8, blank lines are skipped, and the
      rest is parsed. */
  datatype Reading = NotUtf8 | Blank | NotAFrame | Parsed(frame: Frame)

  datatype Codec = Codec(encode: Frame -> seq<byte>, read: seq<byte> -> Reading) {

    /** What JSON gives: encodings have no newline in them, parse back with or without the line's newline,
        and no proper, non-empty prefix of one parses or is blank. A lone newline is blank. */
    ghost predicate Faithful() {
      && read([NEWLINE]) == Blank
      && (forall f :: NEWLINE !in encode(f) && encode(f) != [])
      && (forall f :: read(encode(f)) == Parsed(f) && read(encode(f) + [NEWLINE]) == Parsed(f))
      && (forall f: Frame, n: nat :: 0 < n < |encode(f)| ==>
            read(encode(f)[..n]) == NotUtf8 || read(encode(f)[..n]) == NotAFrame)
    }
  }

  datatype ClientOutcome = DoneSeen | IoError | JsonError | Closed

  /** Length of the next line: up to its newline, the cap, or the end of the stream. */
  function LineLength(bytes: seq<byte>, cap: nat): (n: nat)
    ensures n <= |bytes| && n <= cap
    ensures NEWLINE !in bytes[..n] || (n > 0 && bytes[n - 1] == NEWLINE && NEWLINE !in bytes[..n - 1])
    ensures n == |bytes| || n == cap || (n > 0 && bytes[n - 1] == NEWLINE)
    decreases cap
  {
    if bytes == [] || cap == 0 then 0
    else if bytes[0] == NEWLINE then 1
    else 1 + LineLength(bytes[1..], cap - 1)
  }

  /** The client loop: the frames dispatched, and how the call ends. */
  function Client(codec: Codec, bytes: seq<byte>): (seq<Frame>, ClientOutcome)
    decreases |bytes|
  {
    var n := LineLength(bytes, MAX_LINE_BYTES);
    if n == 0 then ([], Closed)
    else match codec.read(bytes[..n])
      case NotUtf8 => ([], IoError)
      case Blank => Client(codec, bytes[n..])
      case NotAFrame => ([], JsonError)
      case Parsed(frame) =>
        if frame.done then ([frame], DoneSeen)
        else
          var (rest, outcome) := Client(codec, bytes[n..]);
          ([frame] + rest, outcome)
  }

  /** `send_streaming_request` after the request is sent: the per-line cap is reset before every read. */
  method SendStreamingRequest(codec: Codec, bytes: seq<byte>) returns (dispatched: seq<Frame>, outcome: ClientOutcome)
    ensures (dispatched, outcome) == Client(codec, bytes)
  {
    dispatched := [];
    var rest := bytes;
    assert [] + Client(codec, rest).0 == Client(codec, rest).0;
    assert Client(codec, bytes) == (dispatched + Client(codec, rest).0, Client(codec, rest).1);
    while true
      invariant Client(codec, bytes) == (dispatched + Client(codec, rest).0, Client(codec, rest).1)
      decreases |rest|
    {
      var n := LineLength(rest, MAX_LINE_BYTES);
      if n == 0 {
        assert dispatched + [] == dispatched;
        return dispatched, Closed;
      }
      var line := rest[..n];
      ghost var before := rest;
      rest := rest[n..];
      match codec.read(line) {
        case NotUtf8 =>
          assert dispatched + [] == dispatched;
          return dispatched, IoError;
        case Blank =>
        case NotAFrame =>
          assert dispatched + [] == dispatched;
          return dispatched, JsonError;
        case Parsed(frame) =>
          assert dispatched + ([frame] + Client(codec, rest).0) == dispatched + [frame] + Client(codec, rest).0;
          dispatched := dispatched + [frame];
          if frame.done {
            return dispatched, DoneSeen;
          }
      }
    }
  }

  // ---- round trip ----

  /** What the gateway writes for a sequence of frames. */
  function Wire(codec: Codec, frames: seq<Frame>): seq<byte> {
    if frames == [] then []
    else codec.encode(frames[0]) + [NEWLINE] + Wire(codec, frames[1..])
  }

  ghost predicate OnlyLastDone(frames: seq<Frame>) {
    frames != [] && forall i :: 0 <= i < |frames| ==> (frames[i].done <==> i == |frames| - 1)
  }

  ghost predicate Fits(codec: Codec, frame: Frame) {
    |codec.encode(frame)| <= 1048576
  }

  lemma {:induction false} LineEndsAtNewline(line: seq<byte>, rest: seq<byte>, cap: nat)
    requires NEWLINE !in line
    ensures LineLength(line + [NEWLINE] + rest, cap) == if |line| < cap then |line| + 1 else cap
    decreases |line|
  {
    if line != [] && cap > 0 {
      LineEndsAtNewline(line[1..], rest, cap - 1);
      assert (line + [NEWLINE] + rest)[1..] == line[1..] + [NEWLINE] + rest;
    }
  }

  /** The client on a first line that is a frame. */
  lemma ClientOnFrame(codec: Codec, frame: Frame, line: seq<byte>, rest: seq<byte>)
    requires line != [] && LineLength(line + rest, MAX_LINE_BYTES) == |line| && codec.read(line) == Parsed(frame)
    ensures Client(codec, line + rest)
         == if frame.done then ([frame], DoneSeen) else ([frame] + Client(codec, rest).0, Client(codec, rest).1)
  {
    assert (line + rest)[..|line|] == line && (line + rest)[|line|..] == rest;
  }

  /** The client on a line that holds a frame, with its newline. */
  ghost predicate ReadsLine(codec: Codec, frame: Frame, line: seq<byte>, rest: seq<byte>) {
    Client(codec, line + [NEWLINE] + rest)
    == if frame.done then ([frame], DoneSeen) else ([frame] + Client(codec, rest).0, Client(codec, rest).1)
  }

  lemma ShortLineIsRead(codec: Codec, frame: Frame, line: seq<byte>, rest: seq<byte>)
    requires |line| < MAX_LINE_BYTES && NEWLINE !in line && codec.read(line + [NEWLINE]) == Parsed(frame)
    ensures ReadsLine(codec, frame, line, rest)
  {
    LineEndsAtNewline(line, rest, MAX_LINE_BYTES);
    ClientOnFrame(codec, frame, line + [NEWLINE], rest);
  }

  lemma Regrouped(line: seq<byte>, rest: seq<byte>)
    ensures line + [NEWLINE] + rest == line + ([NEWLINE] + rest)
  {
  }

  lemma CapIsReached(line: seq<byte>, rest: seq<byte>)
    requires |line| == MAX_LINE_BYTES && NEWLINE !in line
    ensures LineLength(line + ([NEWLINE] + rest), MAX_LINE_BYTES) == |line|
  {
    Regrouped(line, rest);
    LineEndsAtNewline(line, rest, MAX_LINE_BYTES);
  }

  lemma CapLineIsRead(codec: Codec, frame: Frame, line: seq<byte>, rest: seq<byte>)
    requires |line| == MAX_LINE_BYTES && NEWLINE !in line && codec.read(line) == Parsed(frame)
    requires codec.read([NEWLINE]) == Blank
    ensures ReadsLine(codec, frame, line, rest)
  {
    Regrouped(line, rest);
    CapIsReached(line, rest);
    ClientOnFrame(codec, frame, line, [NEWLINE] + rest);
    BlankIsSkipped(codec, rest);
  }

  /** Reading one frame that fits: when its encoding is exactly the cap, the newline left over is read as a
      blank line and skipped. */
  lemma FrameIsRead(codec: Codec, frame: Frame, rest: seq<byte>)
    requires codec.Faithful() && Fits(codec, frame)
    ensures ReadsLine(codec, frame, codec.encode(frame), rest)
  {
    if |codec.encode(frame)| < MAX_LINE_BYTES {
      ShortLineIsRead(codec, frame, codec.encode(frame), rest);
    } else {
      CapLineIsRead(codec, frame, codec.encode(frame), rest);
    }
  }

  lemma BlankIsSkipped(codec: Codec, rest: seq<byte>)
    requires codec.read([NEWLINE]) == Blank
    ensures Client(codec, [NEWLINE] + rest) == Client(codec, rest)
  {
    var bytes := [NEWLINE] + rest;
    assert LineLength(bytes, MAX_LINE_BYTES) == 1 && bytes[..1] == [NEWLINE] && bytes[1..] == rest;
  }

  /** An encoding over the cap is cut short, does not parse, and ends the call. */
  lemma OversizeIsRefused(codec: Codec, frame: Frame, rest: seq<byte>)
    requires codec.Faithful() && !Fits(codec, frame)
    ensures var (dispatched, outcome) := Client(codec, codec.encode(frame) + [NEWLINE] + rest);
            dispatched == [] && (outcome == IoError || outcome == JsonError)
  {
    var line := codec.encode(frame);
    var bytes := line + [NEWLINE] + rest;
    LineEndsAtNewline(line, rest, MAX_LINE_BYTES);
    assert bytes[..MAX_LINE_BYTES] == line[..MAX_LINE_BYTES];
  }

  ghost predicate AllFit(codec: Codec, frames: seq<Frame>) {
    forall i :: 0 <= i < |frames| ==> Fits(codec, frames[i])
  }

  lemma FitsOneByOne(codec: Codec, frames: seq<Frame>)
    requires frames != []
    ensures AllFit(codec, frames) <==> Fits(codec, frames[0]) && AllFit(codec, frames[1..])
  {
    if Fits(codec, frames[0]) && AllFit(codec, frames[1..]) {
      assert forall i :: 1 <= i < |frames| ==> frames[i] == frames[1..][i - 1];
    }
  }

  lemma SameRest(first: Frame, a: seq<Frame>, b: seq<Frame>)
    ensures [first] + a == [first] + b <==> a == b
  {
    assert ([first] + a)[1..] == a && ([first] + b)[1..] == b;
  }

  ghost predicate ComeThrough(codec: Codec, frames: seq<Frame>, after: seq<byte>) {
    Client(codec, Wire(codec, frames) + after) == (frames, DoneSeen)
  }

  lemma OneComesThrough(codec: Codec, frames: seq<Frame>, after: seq<byte>)
    requires codec.Faithful() && OnlyLastDone(frames) && frames[0].done && Fits(codec, frames[0])
    ensures ComeThrough(codec, frames, after) && AllFit(codec, frames)
  {
    FirstComesThrough(codec, frames, after);
    assert frames == [frames[0]];
  }

  lemma MoreComeThrough(codec: Codec, frames: seq<Frame>, after: seq<byte>)
    requires codec.Faithful() && OnlyLastDone(frames) && !frames[0].done && Fits(codec, frames[0])
    ensures OnlyLastDone(frames[1..])
    ensures ComeThrough(codec, frames, after) <==> ComeThrough(codec, frames[1..], after)
  {
    FirstComesThrough(codec, frames, after);
    assert frames == [frames[0]] + frames[1..];
    SameRest(frames[0], Client(codec, Wire(codec, frames[1..]) + after).0, frames[1..]);
  }

  /** Frames ending in their only done frame come through unchanged and in order, whatever bytes follow,
      exactly when every encoding fits the cap. */
  lemma {:induction false} FramesComeThrough(codec: Codec, frames: seq<Frame>, after: seq<byte>)
    requires codec.Faithful() && OnlyLastDone(frames)
    ensures Client(codec, Wire(codec, frames) + after) == (frames, DoneSeen) <==> AllFit(codec, frames)
  {
    FitsOneByOne(codec, frames);
    if !Fits(codec, frames[0]) {
      FirstDoesNotFit(codec, frames, after);
    } else if frames[0].done {
      OneComesThrough(codec, frames, after);
    } else {
      MoreComeThrough(codec, frames, after);
      FramesComeThrough(codec, frames[1..], after);
    }
  }

  lemma FirstDoesNotFit(codec: Codec, frames: seq<Frame>, after: seq<byte>)
    requires codec.Faithful() && frames != [] && !Fits(codec, frames[0])
    ensures Client(codec, Wire(codec, frames) + after).1 != DoneSeen
  {
    var first, rest := codec.encode(frames[0]), Wire(codec, frames[1..]) + after;
    assert Wire(codec, frames) + after == first + [NEWLINE] + rest;
    OversizeIsRefused(codec, frames[0], rest);
  }

  lemma FirstComesThrough(codec: Codec, frames: seq<Frame>, after: seq<byte>)
    requires codec.Faithful() && frames != [] && Fits(codec, frames[0])
    ensures var (rest, outcome) := Client(codec, Wire(codec, frames[1..]) + after);
            Client(codec, Wire(codec, frames) + after)
            == if frames[0].done then ([frames[0]], DoneSeen) else ([frames[0]] + rest, outcome)
  {
    var first, rest := codec.encode(frames[0]), Wire(codec, frames[1..]) + after;
    assert Wire(codec, frames) + after == first + [NEWLINE] + rest;
    FrameIsRead(codec, frames[0], rest);
  }

  // ---- any bytes at all ----

  /** The lines of a byte stream, as the client cuts it. */
  function Lines(bytes: seq<byte>): seq<seq<byte>>
    decreases |bytes|
  {
    var n := LineLength(bytes, MAX_LINE_BYTES);
    if n == 0 then [] else [bytes[..n]] + Lines(bytes[n..])
  }

  /** The frames of all the lines that parse. */
  function ParsedFrames(codec: Codec, lines: seq<seq<byte>>): seq<Frame> {
    if lines == [] then []
    else (match codec.read(lines[0]) case Parsed(frame) => [frame] case _ => []) + ParsedFrames(codec, lines[1..])
  }

  lemma ParsedFramesOfLines(codec: Codec, line: seq<byte>, rest: seq<seq<byte>>)
    ensures ParsedFrames(codec, [line] + rest)
         == (if codec.read(line).Parsed? then [codec.read(line).frame] else []) + ParsedFrames(codec, rest)
  {
    assert ([line] + rest)[1..] == rest;
  }

  lemma PrefixOfOneMore(first: seq<Frame>, a: seq<Frame>, b: seq<Frame>)
    requires a <= b
    ensures first <= first + b && first + a <= first + b
  {
  }

  /** For any byte stream, only a prefix of the frames on it is dispatched. */
  lemma {:induction false} ClientDispatchesPrefix(codec: Codec, bytes: seq<byte>)
    ensures Client(codec, bytes).0 <= ParsedFrames(codec, Lines(bytes))
    decreases |bytes|
  {
    var n := LineLength(bytes, MAX_LINE_BYTES);
    if n > 0 {
      var reading, rest := codec.read(bytes[..n]), bytes[n..];
      assert Lines(bytes) == [bytes[..n]] + Lines(rest);
      ParsedFramesOfLines(codec, bytes[..n], Lines(rest));
      if reading.Blank? {
        ClientDispatchesPrefix(codec, rest);
        assert [] + ParsedFrames(codec, Lines(rest)) == ParsedFrames(codec, Lines(rest));
      } else if reading.Parsed? {
        ClientDispatchesPrefix(codec, rest);
        PrefixOfOneMore([reading.frame], Client(codec, rest).0, ParsedFrames(codec, Lines(rest)));
      }
    }
  }

  /** For any byte stream, nothing is dispatched after the first done frame, and the call succeeds exactly
      when a done frame was dispatched. */
  lemma {:induction false} ClientStopsAtDone(codec: Codec, bytes: seq<byte>)
    ensures var (dispatched, outcome) := Client(codec, bytes);
            if outcome == DoneSeen then OnlyLastDone(dispatched) else NoneDone(dispatched)
    decreases |bytes|
  {
    var n := LineLength(bytes, MAX_LINE_BYTES);
    if n > 0 {
      var reading := codec.read(bytes[..n]);
      if reading.Blank? {
        ClientStopsAtDone(codec, bytes[n..]);
      } else if reading.Parsed? && !reading.frame.done {
        ClientStopsAtDone(codec, bytes[n..]);
        DoneStaysLast(reading.frame, Client(codec, bytes[n..]).0);
      }
    }
  }

  ghost predicate NoneDone(frames: seq<Frame>) {
    forall i :: 0 <= i < |frames| ==> !frames[i].done
  }

  lemma DoneStaysLast(frame: Frame, rest: seq<Frame>)
    requires !frame.done
    ensures OnlyLastDone(rest) ==> OnlyLastDone([frame] + rest)
    ensures NoneDone(rest) ==> NoneDone([frame] + rest)
  {
    var all := [frame] + rest;
    assert forall i :: 1 <= i < |all| ==> all[i] == rest[i - 1];
  }

  function AllBytes(lines: seq<seq<byte>>): seq<byte> {
    if lines == [] then [] else lines[0] + AllBytes(lines[1..])
  }

  /** A line of at most 2^20 bytes, ended by its only newline, by that cap, or by the end of the stream. */
  ghost predicate IsLine(line: seq<byte>, last: bool) {
    && 0 < |line| <= 1048576 && 10 !in line[..|line| - 1]
    && (last || |line| == 1048576 || line[|line| - 1] == 10)
  }

  lemma Split(bytes: seq<byte>, n: nat)
    requires n <= |bytes|
    ensures bytes[..n] + bytes[n..] == bytes
  {
  }

  lemma FirstLine(bytes: seq<byte>)
    requires LineLength(bytes, MAX_LINE_BYTES) > 0
    ensures var n := LineLength(bytes, MAX_LINE_BYTES);
            Lines(bytes) == [bytes[..n]] + Lines(bytes[n..]) && bytes[..n] + bytes[n..] == bytes
  {
    Split(bytes, LineLength(bytes, MAX_LINE_BYTES));
  }

  lemma NoLine(bytes: seq<byte>)
    requires LineLength(bytes, MAX_LINE_BYTES) == 0
    ensures bytes == [] && Lines(bytes) == []
  {
  }

  lemma {:induction false} LinesJoin(bytes: seq<byte>)
    ensures AllBytes(Lines(bytes)) == bytes
    decreases |bytes|
  {
    var n := LineLength(bytes, MAX_LINE_BYTES);
    if n > 0 {
      FirstLine(bytes);
      LinesJoin(bytes[n..]);
      assert ([bytes[..n]] + Lines(bytes[n..]))[1..] == Lines(bytes[n..]);
    } else {
      NoLine(bytes);
    }
  }

  lemma {:induction false} LinesAreLines(bytes: seq<byte>, i: nat)
    requires i < |Lines(bytes)|
    ensures IsLine(Lines(bytes)[i], i == |Lines(bytes)| - 1)
    decreases |bytes|
  {
    var n := LineLength(bytes, MAX_LINE_BYTES);
    FirstLine(bytes);
    if i > 0 {
      LinesAreLines(bytes[n..], i - 1);
    } else {
      OneLine(bytes, n);
    }
  }

  /** The lines are the bytes, cut after each newline and at the cap. */
  lemma LinesExactly(bytes: seq<byte>)
    ensures AllBytes(Lines(bytes)) == bytes
    ensures forall i :: 0 <= i < |Lines(bytes)| ==> IsLine(Lines(bytes)[i], i == |Lines(bytes)| - 1)
  {
    LinesJoin(bytes);
    forall i | 0 <= i < |Lines(bytes)| ensures IsLine(Lines(bytes)[i], i == |Lines(bytes)| - 1) {
      LinesAreLines(bytes, i);
    }
  }

  lemma OneLine(bytes: seq<byte>, n: nat)
    requires n == LineLength(bytes, MAX_LINE_BYTES) && n > 0
    ensures IsLine(bytes[..n], Lines(bytes[n..]) == [])
  {
    assert bytes[..n][..n - 1] == bytes[..n - 1];
    if n == |bytes| {
      assert bytes[n..] == [];
    }
  }

  /** A line after which the client reads on. */
  predicate ReadsOn(reading: Reading) {
    reading.Blank? || (reading.Parsed? && !reading.frame.done)
  }

  /** How the client ends at a line after which it does not. */
  ghost predicate EndsWith(reading: Reading, outcome: ClientOutcome) {
    match reading
    case NotUtf8 => outcome == IoError
    case NotAFrame => outcome == JsonError
    case Parsed(frame) => frame.done && outcome == DoneSeen
    case Blank => false
  }

  /** On any bytes: the client dispatches the frames of the lines up to the first after which it does not read on,
      that one included, and ends as that line says; without one, when the connection closes. */
  ghost predicate Served(codec: Codec, lines: seq<seq<byte>>, k: nat, dispatched: seq<Frame>, outcome: ClientOutcome) {
    && k <= |lines| && (forall i :: 0 <= i < k ==> ReadsOn(codec.read(lines[i])))
    && if k == |lines| then dispatched == ParsedFrames(codec, lines) && outcome == Closed
       else dispatched == ParsedFrames(codec, lines[..k + 1]) && EndsWith(codec.read(lines[k]), outcome)
  }

  /** Line `k` of `bytes` is the first such line, or there is none and `k` is their number. */
  ghost predicate ServedTo(codec: Codec, bytes: seq<byte>, k: nat) {
    Served(codec, Lines(bytes), k, Client(codec, bytes).0, Client(codec, bytes).1)
  }

  lemma ServedOneMore(codec: Codec, line: seq<byte>, lines: seq<seq<byte>>, k: nat, dispatched: seq<Frame>,
                      outcome: ClientOutcome)
    requires Served(codec, lines, k, dispatched, outcome) && ReadsOn(codec.read(line))
    ensures Served(codec, [line] + lines, k + 1,
                   (if codec.read(line).Parsed? then [codec.read(line).frame] else []) + dispatched, outcome)
  {
    var all := [line] + lines;
    ParsedFramesOfLines(codec, line, lines);
    if k < |lines| {
      assert all[..k + 2] == [line] + lines[..k + 1];
      ParsedFramesOfLines(codec, line, lines[..k + 1]);
    }
    assert forall i :: 1 <= i < |all| ==> all[i] == lines[i - 1];
  }

  lemma ClientOneMore(codec: Codec, bytes: seq<byte>, n: nat)
    requires n == LineLength(bytes, MAX_LINE_BYTES) && n > 0
    ensures var reading, rest := codec.read(bytes[..n]), Client(codec, bytes[n..]);
            if ReadsOn(reading) then
              Client(codec, bytes) == ((if reading.Parsed? then [reading.frame] else []) + rest.0, rest.1)
            else
              && Client(codec, bytes).0 == (if reading.Parsed? then [reading.frame] else [])
              && EndsWith(reading, Client(codec, bytes).1)
  {
    assert [] + Client(codec, bytes[n..]).0 == Client(codec, bytes[n..]).0;
  }

  lemma ServedFirst(codec: Codec, line: seq<byte>, lines: seq<seq<byte>>, outcome: ClientOutcome)
    requires !ReadsOn(codec.read(line)) && EndsWith(codec.read(line), outcome)
    ensures Served(codec, [line] + lines, 0, if codec.read(line).Parsed? then [codec.read(line).frame] else [], outcome)
  {
    ParsedFramesOfLines(codec, line, []);
    assert [line] + [] == [line] && ([line] + lines)[..1] == [line];
  }

  lemma {:induction false} ClientExactly(codec: Codec, bytes: seq<byte>) returns (k: nat)
    ensures ServedTo(codec, bytes, k)
    decreases |bytes|
  {
    var n := LineLength(bytes, MAX_LINE_BYTES);
    k := 0;
    if n == 0 {
      ServedNothing(codec, bytes);
    } else if ReadsOn(codec.read(bytes[..n])) {
      k := ClientExactly(codec, bytes[n..]);
      ServedAfterLine(codec, bytes, n, k);
      k := k + 1;
    } else {
      ServedAtOnce(codec, bytes, n);
    }
  }

  lemma ServedAfterLine(codec: Codec, bytes: seq<byte>, n: nat, k: nat)
    requires n == LineLength(bytes, MAX_LINE_BYTES) && n > 0 && ReadsOn(codec.read(bytes[..n]))
    requires ServedTo(codec, bytes[n..], k)
    ensures ServedTo(codec, bytes, k + 1)
  {
    FirstLine(bytes);
    ClientOneMore(codec, bytes, n);
    ServedOneMore(codec, bytes[..n], Lines(bytes[n..]), k, Client(codec, bytes[n..]).0, Client(codec, bytes[n..]).1);
  }

  lemma ServedAtOnce(codec: Codec, bytes: seq<byte>, n: nat)
    requires n == LineLength(bytes, MAX_LINE_BYTES) && n > 0 && !ReadsOn(codec.read(bytes[..n]))
    ensures ServedTo(codec, bytes, 0)
  {
    FirstLine(bytes);
    ClientOneMore(codec, bytes, n);
    ServedFirst(codec, bytes[..n], Lines(bytes[n..]), Client(codec, bytes).1);
  }

  lemma ServedNothing(codec: Codec, bytes: seq<byte>)
    requires LineLength(bytes, MAX_LINE_BYTES) == 0
    ensures ServedTo(codec, bytes, 0)
  {
    NoLine(bytes);
  }

  // ---- end to end ----

  /** From the provider's lines to the client's callback: for every request, configuration, budget, provider,
      response and schedule, if every frame fits a line the client dispatches exactly the exchange's frames,
      so its deltas are a prefix of what the provider's lines denote, and all of it unless an error frame
      says otherwise. */
  lemma ProviderToClient(codec: Codec, request: Request, config: Config, remaining: nat,
                         t: Transport, d: Decoder, response: Response, moves: seq<Move>)
    requires codec.Faithful()
    requires Run(SourceOf(t, d, response), moves).consumer.Returned?
    requires var p := Run(SourceOf(t, d, response), moves);
             var call := Exchange(request, config, remaining, Call(p.calls, p.consumer.outcome));
             AllFit(codec, Frames(request.requestId, call))
    ensures var source := SourceOf(t, d, response);
            var p := Run(source, moves);
            var call := Exchange(request, config, remaining, Call(p.calls, p.consumer.outcome));
            var (dispatched, outcome) := Client(codec, Wire(codec, Frames(request.requestId, call)));
            && outcome == DoneSeen
            && WellFramed(request.requestId, dispatched, call.outcome.Failed?)
            && FrameDeltas(dispatched) <= Denoted(source)
            && (dispatched[|dispatched| - 1].error.None? ==> FrameDeltas(dispatched) == Denoted(source))
  {
    EveryExchangeIsWellFramed(request, config, remaining, t, d, response, moves);
    var p := Run(SourceOf(t, d, response), moves);
    var call := Exchange(request, config, remaining, Call(p.calls, p.consumer.outcome));
    var frames := Frames(request.requestId, call);
    FramesComeThrough(codec, frames, []);
    assert Wire(codec, frames) + [] == Wire(codec, frames);
  }
}
