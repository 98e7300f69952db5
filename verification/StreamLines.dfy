/** How a provider's stream ends, on the lines it sends (src/model_provider.rs): which lines carry text, which end
    the stream, which break it, and what the caller is told. */
module StreamLines {
  import opened Outcomes
  import opened Text
  import opened Streaming
  import EventStreams

  // ---- what a line means ----

  /** The text of a member of a JSON object. */
  function TextAt(value: Json, key: string): Option<string> {
    if value.JObject? && key in value.members && value.members[key].JString? then Some(value.members[key].text)
    else None
  }

  predicate Has(value: Json, key: string) {
    value.JObject? && key in value.members
  }

  /** What an error event says, or that it says nothing. */
  function Complaint(value: Json): string {
    if Has(value, "error") && TextAt(value.members["error"], "message").Some?
    then TextAt(value.members["error"], "message").value
    else "provider reported a stream error"
  }

  /** The first choice's `delta.content` of a chat completion chunk; empty when there is none. */
  function Content(value: Json): string {
    if Has(value, "choices") && value.members["choices"].JArray? && value.members["choices"].items != [] then
      var choice := value.members["choices"].items[0];
      if Has(choice, "delta") && TextAt(choice.members["delta"], "content").Some?
      then TextAt(choice.members["delta"], "content").value
      else ""
    else ""
  }

  /** The line's payload decodes to `value`; a terminator that is no JSON has no value. */
  ghost predicate Decodes(t: Transport, d: Decoder, line: Line, value: Json) {
    && t != Ollama && line.Text? && EventStreams.Payload(line.text).Some?
    && (t == OpenAiCompatible ==> EventStreams.Payload(line.text).value != "[DONE]")
    && d.json(EventStreams.Payload(line.text).value) == Success(value)
  }

  ghost predicate OllamaLine(t: Transport, line: Line) {
    t == Ollama && line.Text? && !Blank(line.text)
  }

  /** A line that ends the stream, with a last piece of text. */
  ghost predicate Ends(t: Transport, d: Decoder, line: Line, last: string) {
    match t
    case Ollama => OllamaLine(t, line) && d.ollama(line.text) == Success((last, true))
    case OpenAiCompatible => line.Text? && EventStreams.Payload(line.text) == Some("[DONE]") && last == ""
    case Anthropic =>
      last == "" && exists value :: Decodes(t, d, line, value) && TextAt(value, "type") == Some("message_stop")
  }

  /** A line that breaks the stream: it cannot be read, it cannot be decoded, or it is an error event. */
  ghost predicate Breaks(t: Transport, d: Decoder, line: Line, message: string) {
    || line == Broken(message)
    || Undecodable(t, d, line, message)
    || (exists value :: Decodes(t, d, line, value) && IsErrorEvent(t, value) && message == Complaint(value))
  }

  ghost predicate Undecodable(t: Transport, d: Decoder, line: Line, message: string) {
    if t == Ollama then OllamaLine(t, line) && d.ollama(line.text) == Failure(message)
    else
      && line.Text? && EventStreams.Payload(line.text).Some?
      && (t == OpenAiCompatible ==> EventStreams.Payload(line.text).value != "[DONE]")
      && d.json(EventStreams.Payload(line.text).value) == Failure(message)
  }

  predicate IsErrorEvent(t: Transport, value: Json) {
    if t == OpenAiCompatible then Has(value, "error") else TextAt(value, "type") == Some("error")
  }

  /** A line that carries text. */
  ghost predicate Carries(t: Transport, d: Decoder, line: Line, delta: string) {
    match t
    case Ollama => OllamaLine(t, line) && d.ollama(line.text) == Success((delta, false))
    case OpenAiCompatible =>
      exists value :: Decodes(t, d, line, value) && !Has(value, "error") && delta == Content(value)
    case Anthropic => exists value :: Decodes(t, d, line, value) && IsTextDelta(value) && delta == DeltaText(value)
  }

  predicate IsTextDelta(value: Json) {
    && TextAt(value, "type") == Some("content_block_delta")
    && Has(value, "delta") && TextAt(value.members["delta"], "type") == Some("text_delta")
  }

  function DeltaText(value: Json): string {
    if Has(value, "delta") then TextAt(value.members["delta"], "text").GetOr("") else ""
  }

  lemma ReadsOllama(d: Decoder, text: string, s: string)
    ensures var v := Read(Ollama, d, Line.Text(text)); var line := Line.Text(text);
            && (v == Finish(s) <==> Ends(Ollama, d, line, s)) && (v == Abort(s) <==> Breaks(Ollama, d, line, s))
            && (v == Send(s) <==> Carries(Ollama, d, line, s))
  {
    TrimBlank(text);
  }

  lemma ReadsOpenAiValue(d: Decoder, data: string, value: Json)
    requires data != "[DONE]" && d.json(data) == Success(value)
    ensures ReadOpenAiData(d, data) == if Has(value, "error") then Abort(Complaint(value)) else Send(Content(value))
  {
  }

  lemma ReadsOpenAi(d: Decoder, text: string, s: string)
    ensures var v := Read(OpenAiCompatible, d, Line.Text(text)); var line := Line.Text(text);
            && (v == Finish(s) <==> Ends(OpenAiCompatible, d, line, s))
            && (v == Abort(s) <==> Breaks(OpenAiCompatible, d, line, s))
            && (v == Send(s) <==> Carries(OpenAiCompatible, d, line, s))
  {
    EventStreams.ReadsOnlyThePayload(OpenAiCompatible, d, text);
    var payload := EventStreams.Payload(text);
    if payload.Some? && payload.value != "[DONE]" && d.json(payload.value).Success? {
      ReadsOpenAiValue(d, payload.value, d.json(payload.value).value);
      assert Decodes(OpenAiCompatible, d, Line.Text(text), d.json(payload.value).value);
    }
  }

  lemma ReadsAnthropicValue(d: Decoder, data: string, value: Json)
    requires d.json(data) == Success(value)
    ensures ReadAnthropicData(d, data)
         == if TextAt(value, "type") == Some("message_stop") then Finish("")
            else if TextAt(value, "type") == Some("error") then Abort(Complaint(value))
            else if IsTextDelta(value) then Send(DeltaText(value))
            else Skip
  {
  }

  lemma ReadsAnthropic(d: Decoder, text: string, s: string)
    ensures var v := Read(Anthropic, d, Line.Text(text)); var line := Line.Text(text);
            && (v == Finish(s) <==> Ends(Anthropic, d, line, s)) && (v == Abort(s) <==> Breaks(Anthropic, d, line, s))
            && (v == Send(s) <==> Carries(Anthropic, d, line, s))
  {
    EventStreams.ReadsOnlyThePayload(Anthropic, d, text);
    var payload := EventStreams.Payload(text);
    if payload.Some? && d.json(payload.value).Success? {
      ReadsAnthropicValue(d, payload.value, d.json(payload.value).value);
      assert Decodes(Anthropic, d, Line.Text(text), d.json(payload.value).value);
    }
  }

  /** What the producer does with a line is what the line means; a line that means nothing is skipped. */
  lemma ReadExactly(t: Transport, d: Decoder, line: Line, s: string)
    ensures Read(t, d, line) == Finish(s) <==> Ends(t, d, line, s)
    ensures Read(t, d, line) == Abort(s) <==> Breaks(t, d, line, s)
    ensures Read(t, d, line) == Send(s) <==> Carries(t, d, line, s)
  {
    if line.Text? {
      match t
      case Ollama => ReadsOllama(d, line.text, s);
      case OpenAiCompatible => ReadsOpenAi(d, line.text, s);
      case Anthropic => ReadsAnthropic(d, line.text, s);
    }
  }

  // ---- the line that decides ----

  ghost predicate Decides(t: Transport, d: Decoder, line: Line) {
    (exists last :: Ends(t, d, line, last)) || (exists message :: Breaks(t, d, line, message))
  }

  /** Line `k` is the first that ends or breaks the stream. */
  ghost predicate Decisive(t: Transport, d: Decoder, lines: seq<Line>, k: nat) {
    && k < |lines| && Decides(t, d, lines[k])
    && forall i :: 0 <= i < k ==> !Decides(t, d, lines[i])
  }

  /** The first such line is one that ends the stream. */
  ghost predicate Terminated(t: Transport, d: Decoder, lines: seq<Line>) {
    exists k: nat, last :: Decisive(t, d, lines, k) && Ends(t, d, lines[k], last)
  }

  /** What the caller is told when it is not: the refusal, what the first such line complains of, or that the body
      ended too early. */
  ghost predicate FailsWith(t: Transport, d: Decoder, response: Response, message: string) {
    match response
    case Refused(refusal) => message == refusal
    case Body(lines) =>
      || (exists k: nat :: Decisive(t, d, lines, k) && Breaks(t, d, lines[k], message))
      || ((forall i :: 0 <= i < |lines| ==> !Decides(t, d, lines[i]))
          && message == match t
                        case Ollama => "stream ended before a done line"
                        case OpenAiCompatible => "stream ended before a [DONE] line"
                        case Anthropic => "stream ended before a message_stop event")
  }

  predicate Deciding(verdict: Verdict) {
    verdict.Finish? || verdict.Abort?
  }

  lemma DecidesExactly(t: Transport, d: Decoder, line: Line)
    ensures Decides(t, d, line) <==> Deciding(Read(t, d, line))
  {
    var verdict := Read(t, d, line);
    match verdict
    case Finish(last) => ReadExactly(t, d, line, last);
    case Abort(message) => ReadExactly(t, d, line, message);
    case _ =>
    forall s ensures !Ends(t, d, line, s) || Deciding(verdict) {
      ReadExactly(t, d, line, s);
    }
    forall s ensures !Breaks(t, d, line, s) || Deciding(verdict) {
      ReadExactly(t, d, line, s);
    }
  }

  function LastOf(messages: seq<Message>): Message
    requires messages != []
  {
    messages[|messages| - 1]
  }

  lemma {:induction false} LastMessage(verdicts: seq<Verdict>, endOfBody: string, k: nat)
    requires k <= |verdicts| && forall i :: 0 <= i < k ==> !Deciding(verdicts[i])
    requires k < |verdicts| ==> Deciding(verdicts[k])
    ensures Messages(verdicts, endOfBody) != []
    ensures LastOf(Messages(verdicts, endOfBody))
         == if k < |verdicts| then MessageOf(verdicts[k]) else Fault(endOfBody)
  {
    if k > 0 {
      LastMessage(verdicts[1..], endOfBody, k - 1);
    }
  }

  lemma FirstDeciding(verdicts: seq<Verdict>) returns (k: nat)
    ensures k <= |verdicts| && forall i :: 0 <= i < k ==> !Deciding(verdicts[i])
    ensures k < |verdicts| ==> Deciding(verdicts[k])
  {
    k := 0;
    while k < |verdicts| && !Deciding(verdicts[k])
      invariant k <= |verdicts| && forall i :: 0 <= i < k ==> !Deciding(verdicts[i])
    {
      k := k + 1;
    }
  }

  /** The last message of a response: a done part exactly if the first line that ends or breaks the stream ends it,
      and otherwise the complaint. */
  ghost predicate EndsAsRead(t: Transport, d: Decoder, response: Response, last: Message) {
    match last
    case Part(chunk) => chunk.done && response.Body? && Terminated(t, d, response.lines)
    case Fault(message) =>
      FailsWith(t, d, response, message) && (response.Body? ==> !Terminated(t, d, response.lines))
  }

  lemma OneDecisive(t: Transport, d: Decoder, lines: seq<Line>, k: nat, m: nat)
    requires Decisive(t, d, lines, k) && Decisive(t, d, lines, m)
    ensures k == m
  {
  }

  lemma BodyEnds(t: Transport, d: Decoder, lines: seq<Line>)
    ensures var all := AllMessages(SourceOf(t, d, Body(lines)));
            all != [] && EndsAsRead(t, d, Body(lines), LastOf(all))
  {
    var verdicts := Each(Reader(t, d), lines);
    var k := FirstDeciding(verdicts);
    LastMessage(verdicts, EndOfBody(t), k);
    forall i | 0 <= i < |lines| ensures Decides(t, d, lines[i]) <==> Deciding(verdicts[i]) {
      DecidesExactly(t, d, lines[i]);
    }
    if k < |lines| {
      assert Decisive(t, d, lines, k);
      DecidedBy(t, d, lines, k);
    } else {
      NothingDecides(t, d, lines);
    }
  }

  lemma NothingDecides(t: Transport, d: Decoder, lines: seq<Line>)
    requires forall i :: 0 <= i < |lines| ==> !Decides(t, d, lines[i])
    ensures EndsAsRead(t, d, Body(lines), Fault(EndOfBody(t)))
  {
  }

  lemma DecidedBy(t: Transport, d: Decoder, lines: seq<Line>, k: nat)
    requires Decisive(t, d, lines, k) && Deciding(Read(t, d, lines[k]))
    ensures EndsAsRead(t, d, Body(lines), MessageOf(Read(t, d, lines[k])))
  {
    match Read(t, d, lines[k])
    case Finish(last) => ReadExactly(t, d, lines[k], last);
    case Abort(message) =>
      ReadExactly(t, d, lines[k], message);
      forall m: nat, last | Decisive(t, d, lines, m) ensures !Ends(t, d, lines[m], last) {
        OneDecisive(t, d, lines, k, m);
        ReadExactly(t, d, lines[k], last);
      }
  }

  lemma EveryResponseEnds(t: Transport, d: Decoder, response: Response)
    ensures var all := AllMessages(SourceOf(t, d, response));
            all != [] && EndsAsRead(t, d, response, LastOf(all))
  {
    if response.Body? {
      BodyEnds(t, d, response.lines);
    }
  }

  // ---- in every schedule ----

  /** A call fails for an idle timeout or with a message of the producer. */
  ghost predicate FailedFor(source: Source, p: Pipe, moves: seq<Move>) {
    match p.consumer
    case Returned(Failed(code, message)) =>
      code == "ERR_MODEL_FAILED"
      && ((IdleTimeout in moves && message == "idle timeout") || Fault(message) in AllMessages(source))
    case _ => true
  }

  lemma FailedForStep(source: Source, p: Pipe, moves: seq<Move>, m: Move)
    requires Flowing(source, p) && FailedFor(source, p, moves)
    ensures FailedFor(source, Step(source, p, m), moves + [m])
  {
    assert m in moves + [m];
    if m.Receive? && p.consumer.Receiving? {
      NeverDisconnected(source, p);
      if p.channel != [] {
        var all := AllMessages(source);
        assert all == Received(p.calls) + p.channel + Unsent(source, p.producer);
        assert all[|p.calls|] == p.channel[0];
      }
    }
  }

  lemma {:induction false} EveryFailureHasReason(source: Source, moves: seq<Move>)
    ensures FailedFor(source, Run(source, moves), moves)
  {
    if moves != [] {
      var before := moves[..|moves| - 1];
      EveryFailureHasReason(source, before);
      EveryScheduleFlows(source, before);
      FailedForStep(source, Run(source, before), before, moves[|moves| - 1]);
      assert before + [moves[|moves| - 1]] == moves;
    }
  }

  /** For every provider, body and schedule: a call that completes had a body whose first decisive line ends the
      stream; one that fails timed out, or had no such body and is told why. */
  lemma CompletesExactly(t: Transport, d: Decoder, response: Response, moves: seq<Move>)
    ensures match Run(SourceOf(t, d, response), moves).consumer
            case Receiving => true
            case Returned(Completed) => response.Body? && Terminated(t, d, response.lines)
            case Returned(Failed(code, message)) =>
              && code == "ERR_MODEL_FAILED"
              && (|| (IdleTimeout in moves && message == "idle timeout")
                  || (FailsWith(t, d, response, message)
                      && (response.Body? ==> !Terminated(t, d, response.lines))))
  {
    var source := SourceOf(t, d, response);
    var p, all := Run(source, moves), AllMessages(source);
    EveryScheduleFlows(source, moves);
    EveryFailureHasReason(source, moves);
    EveryResponseEnds(t, d, response);
    LastIsTerminal(source);
    match p.consumer
    case Receiving =>
    case Returned(Completed) => ReceivedIsPart(p.calls);
    case Returned(Failed(code, message)) =>
      if Fault(message) in all {
        FaultIsLast(all, Fault(message));
      }
  }

  lemma ReceivedIsPart(calls: seq<Chunk>)
    ensures calls == [] || LastOf(Received(calls)).Part?
  {
  }

  lemma FaultIsLast(all: seq<Message>, fault: Message)
    requires fault.Fault? && fault in all && forall i :: 0 <= i < |all| - 1 ==> !Terminal(all[i])
    ensures LastOf(all) == fault
  {
  }
}
