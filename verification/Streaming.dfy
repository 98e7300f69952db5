/** Streaming calls to a model provider (src/model_provider.rs): a producer thread turns the provider's
    lines into channel messages, and the caller receives them under an idle timeout. */
module Streaming {
  import opened Outcomes
  import opened Text

  // ---- what the provider sends ----

  datatype Json =
    | JNull
    | JBool(value: bool)
    | JNumber(digits: string)
    | JString(text: string)
    | JArray(items: seq<Json>)
    | JObject(members: map<string, Json>)
  {
    function Get(key: string): Option<Json> {
      if JObject? && key in members then Some(members[key]) else None
    }

    function First(): Option<Json> {
      if JArray? && items != [] then Some(items[0]) else None
    }
  }

  function Member(value: Option<Json>, key: string): Option<Json> {
    match value
    case None => None
    case Some(v) => v.Get(key)
  }

  function AsText(value: Option<Json>): Option<string> {
    match value
    case Some(JString(text)) => Some(text)
    case _ => None
  }

  /** The JSON parser, and the deserializer of Ollama's stream lines to (response, done). */
  datatype Decoder = Decoder(
    json: string -> Result<Json, string>,
    ollama: string -> Result<(string, bool), string>)

  datatype Transport = Ollama | OpenAiCompatible | Anthropic

  /** One line of the body, or the error of reading it. */
  datatype Line = Text(text: string) | Broken(message: string)

  /** A request that could not be sent or was refused, or a body. */
  datatype Response = Refused(message: string) | Body(lines: seq<Line>)

  /** What a line makes the producer do. */
  datatype Verdict = Skip | Send(delta: string) | Finish(last: string) | Abort(message: string)

  function ReadOllama(d: Decoder, line: string): Verdict {
    if Trim(line) == "" then Skip
    else match d.ollama(line)
      case Failure(message) => Abort(message)
      case Success((response, done)) => if done then Finish(response) else Send(response)
  }

  function ReadOpenAiData(d: Decoder, data: string): Verdict {
    if data == "[DONE]" then Finish("")
    else match d.json(data)
      case Failure(message) => Abort(message)
      case Success(parsed) =>
        if parsed.Get("error").Some? then
          Abort(AsText(Member(parsed.Get("error"), "message")).GetOr("provider reported a stream error"))
        else
          var choice := (match parsed.Get("choices") case Some(choices) => choices.First() case None => None);
          Send(AsText(Member(Member(choice, "delta"), "content")).GetOr(""))
  }

  function ReadOpenAi(d: Decoder, line: string): Verdict {
    var trimmed := Trim(line);
    if trimmed == "" || StartsWith(trimmed, ":") then Skip
    else match StripPrefix(trimmed, "data:")
      case None => Skip
      case Some(data) => ReadOpenAiData(d, Trim(data))
  }

  function ReadAnthropicData(d: Decoder, data: string): Verdict {
    match d.json(data)
    case Failure(message) => Abort(message)
    case Success(parsed) =>
      var kind := AsText(parsed.Get("type")).GetOr("");
      if kind == "message_stop" then Finish("")
      else if kind == "error" then
        Abort(AsText(Member(parsed.Get("error"), "message")).GetOr("provider reported a stream error"))
      else if kind == "content_block_delta" then
        if AsText(Member(parsed.Get("delta"), "type")) != Some("text_delta") then Skip
        else Send(AsText(Member(parsed.Get("delta"), "text")).GetOr(""))
      else Skip
  }

  function ReadAnthropic(d: Decoder, line: string): Verdict {
    match StripPrefix(Trim(line), "data:")
    case None => Skip
    case Some(data) => ReadAnthropicData(d, Trim(data))
  }

  function Read(t: Transport, d: Decoder, line: Line): Verdict {
    match line
    case Broken(message) => Abort(message)
    case Text(text) =>
      match t
      case Ollama => ReadOllama(d, text)
      case OpenAiCompatible => ReadOpenAi(d, text)
      case Anthropic => ReadAnthropic(d, text)
  }

  function EndOfBody(t: Transport): string {
    match t
    case Ollama => "stream ended before a done line"
    case OpenAiCompatible => "stream ended before a [DONE] line"
    case Anthropic => "stream ended before a message_stop event"
  }

  // ---- what the lines denote ----

  datatype Chunk = Chunk(delta: string, done: bool)

  datatype Message = Part(chunk: Chunk) | Fault(message: string)

  /** What a response makes the producer do: fail at once, or react line by line, with the complaint for a
      body that ends too early. */
  datatype Source = Refusal(message: string) | Verdicts(verdicts: seq<Verdict>, endOfBody: string)

  function Reader(t: Transport, d: Decoder): Line -> Verdict {
    line => Read(t, d, line)
  }

  function Each(read: Line -> Verdict, lines: seq<Line>): seq<Verdict> {
    seq(|lines|, i requires 0 <= i < |lines| => read(lines[i]))
  }

  function SourceOf(t: Transport, d: Decoder, response: Response): Source {
    match response
    case Refused(message) => Refusal(message)
    case Body(lines) => Verdicts(Each(Reader(t, d), lines), EndOfBody(t))
  }

  lemma EachCons(read: Line -> Verdict, line: Line, rest: seq<Line>)
    ensures Each(read, [line] + rest) == [read(line)] + Each(read, rest)
  {
  }

  /** The lines up to the first one that ends the stream, that one included. */
  function Heard(verdicts: seq<Verdict>): seq<Verdict> {
    if verdicts == [] then []
    else if verdicts[0].Finish? || verdicts[0].Abort? then verdicts[..1]
    else verdicts[..1] + Heard(verdicts[1..])
  }

  /** The deltas that lines carry, in order. */
  function Deltas(verdicts: seq<Verdict>): seq<string> {
    if verdicts == [] then []
    else
      (match verdicts[0]
       case Send(delta) => [delta]
       case Finish(last) => [last]
       case _ => [])
      + Deltas(verdicts[1..])
  }

  /** What a provider's response denotes. */
  function Denoted(source: Source): seq<string> {
    match source
    case Refusal(_) => []
    case Verdicts(verdicts, _) => Deltas(Heard(verdicts))
  }

  // ---- the producer ----

  /** Everything the producer sends to a receiver that never hangs up. */
  function Messages(verdicts: seq<Verdict>, endOfBody: string): seq<Message> {
    if verdicts == [] then [Fault(endOfBody)]
    else match verdicts[0]
      case Skip => Messages(verdicts[1..], endOfBody)
      case Send(delta) => [Part(Chunk(delta, false))] + Messages(verdicts[1..], endOfBody)
      case Finish(last) => [Part(Chunk(last, true))]
      case Abort(message) => [Fault(message)]
  }

  function AllMessages(source: Source): seq<Message> {
    match source
    case Refusal(message) => [Fault(message)]
    case Verdicts(verdicts, endOfBody) => Messages(verdicts, endOfBody)
  }

  function Least(a: nat, b: nat): nat {
    if a <= b then a else b
  }

  /** What a verdict other than Skip sends. */
  function MessageOf(verdict: Verdict): Message
    requires !verdict.Skip?
  {
    match verdict
    case Send(delta) => Part(Chunk(delta, false))
    case Finish(last) => Part(Chunk(last, true))
    case Abort(message) => Fault(message)
  }

  /** `sent` is what the producer has sent when `verdicts[i..]` are still to be read. */
  ghost predicate SentSoFar(verdicts: seq<Verdict>, endOfBody: string, i: nat, sent: seq<Message>) {
    i <= |verdicts| && sent + Messages(verdicts[i..], endOfBody) == Messages(verdicts, endOfBody)
  }

  lemma SkipsOne(verdicts: seq<Verdict>, endOfBody: string, i: nat, sent: seq<Message>)
    requires SentSoFar(verdicts, endOfBody, i, sent) && i < |verdicts| && verdicts[i].Skip?
    ensures SentSoFar(verdicts, endOfBody, i + 1, sent)
  {
    MessagesStep(verdicts, i, endOfBody);
  }

  lemma SendsOne(verdicts: seq<Verdict>, endOfBody: string, i: nat, sent: seq<Message>)
    requires SentSoFar(verdicts, endOfBody, i, sent) && i < |verdicts| && !verdicts[i].Skip?
    ensures var all := Messages(verdicts, endOfBody); var more := sent + [MessageOf(verdicts[i])];
            && sent == all[..|sent|] && more <= all
            && (if verdicts[i].Send? then SentSoFar(verdicts, endOfBody, i + 1, more) else more == all)
  {
    MessagesStep(verdicts, i, endOfBody);
    var rest := Messages(verdicts[i + 1..], endOfBody);
    assert sent + ([MessageOf(verdicts[i])] + rest) == sent + [MessageOf(verdicts[i])] + rest;
  }

  /** The producer thread, against a receiver that hangs up after `accepted` messages: its messages are
      the first ones of `AllMessages`, and it stops reading once a delta is refused. */
  method Produce(t: Transport, d: Decoder, response: Response, accepted: nat) returns (sent: seq<Message>)
    ensures var all := AllMessages(SourceOf(t, d, response)); sent == all[..Least(accepted, |all|)]
  {
    if response.Refused? {
      return if accepted > 0 then [Fault(response.message)] else [];
    }
    sent := [];
    ghost var source := SourceOf(t, d, response);
    ghost var verdicts, endOfBody := source.verdicts, source.endOfBody;
    assert verdicts[0..] == verdicts;
    for i := 0 to |response.lines|
      invariant |sent| <= accepted && SentSoFar(verdicts, endOfBody, i, sent)
    {
      var verdict := Read(t, d, response.lines[i]);
      assert verdict == verdicts[i];
      if verdict.Skip? {
        SkipsOne(verdicts, endOfBody, i, sent);
      } else {
        SendsOne(verdicts, endOfBody, i, sent);
        if |sent| == accepted {
          return;
        }
        sent := sent + [MessageOf(verdict)];
        if !verdict.Send? {
          return;
        }
      }
    }
    assert verdicts[|response.lines|..] == [];
    if |sent| < accepted {
      sent := sent + [Fault(EndOfBody(t))];
    }
  }

  lemma MessagesStep(verdicts: seq<Verdict>, i: nat, endOfBody: string)
    requires i < |verdicts|
    ensures Messages(verdicts[i..], endOfBody)
         == (if verdicts[i].Skip? then [] else [MessageOf(verdicts[i])])
            + (if verdicts[i].Skip? || verdicts[i].Send? then Messages(verdicts[i + 1..], endOfBody) else [])
  {
    assert verdicts[i..][0] == verdicts[i] && verdicts[i..][1..] == verdicts[i + 1..];
  }

  predicate Terminal(m: Message) {
    m.Fault? || m.chunk.done
  }

  /** Exactly one message is terminal, and it is the last. */
  lemma {:induction false} OneTerminalMessage(verdicts: seq<Verdict>, endOfBody: string)
    ensures var all := Messages(verdicts, endOfBody);
            && all != [] && Terminal(all[|all| - 1])
            && (forall i :: 0 <= i < |all| - 1 ==> !Terminal(all[i]))
  {
    if verdicts != [] {
      OneTerminalMessage(verdicts[1..], endOfBody);
    }
  }

  function Parts(messages: seq<Message>): seq<Chunk> {
    if messages == [] then []
    else (if messages[0].Part? then [messages[0].chunk] else []) + Parts(messages[1..])
  }

  function Texts(chunks: seq<Chunk>): seq<string> {
    if chunks == [] then [] else [chunks[0].delta] + Texts(chunks[1..])
  }

  /** The messages carry exactly the deltas of the lines up to the end of the stream. */
  lemma {:induction false} MessagesCarryDeltas(verdicts: seq<Verdict>, endOfBody: string)
    ensures Texts(Parts(Messages(verdicts, endOfBody))) == Deltas(Heard(verdicts))
  {
    if verdicts == [] {
      assert Parts([Fault(endOfBody)]) == [];
    } else if verdicts[0].Skip? || verdicts[0].Send? {
      MessagesCarryDeltas(verdicts[1..], endOfBody);
      assert (verdicts[..1] + Heard(verdicts[1..]))[1..] == Heard(verdicts[1..]);
    } else {
      assert verdicts[..1][1..] == [];
    }
  }

  // ---- the channel and its schedule ----

  datatype Producer = Reading(next: nat) | Dropped

  datatype Outcome = Completed | Failed(code: string, message: string)

  datatype Consumer = Receiving | Returned(outcome: Outcome)

  datatype Pipe = Pipe(producer: Producer, channel: seq<Message>, consumer: Consumer, calls: seq<Chunk>)

  /** One step of the producer thread, one receive, or an idle timeout. */
  datatype Move = ProducerStep | Receive | IdleTimeout

  const OPENED := Pipe(Reading(0), [], Receiving, [])

  const IDLE := Failed("ERR_MODEL_FAILED", "idle timeout")
  const DISCONNECTED := Failed("ERR_MODEL_RESPONSE_INVALID", "stream ended unexpectedly")

  /** `tx.send`, which fails once the receiver is gone. */
  function Sent(p: Pipe, m: Message): Pipe {
    if p.consumer.Receiving? then p.(channel := p.channel + [m]) else p
  }

  function StepProducer(source: Source, p: Pipe): Pipe {
    if p.producer.Dropped? then p
    else match source
      case Refusal(message) => Sent(p, Fault(message)).(producer := Dropped)
      case Verdicts(verdicts, endOfBody) =>
        var i := p.producer.next;
        if i >= |verdicts| then Sent(p, Fault(endOfBody)).(producer := Dropped)
        else if verdicts[i].Skip? then p.(producer := Reading(i + 1))
        else
          var goesOn := verdicts[i].Send? && p.consumer.Receiving?;
          Sent(p, MessageOf(verdicts[i])).(producer := if goesOn then Reading(i + 1) else Dropped)
  }

  /** What `recv_timeout` returns. */
  datatype Arrival = Arrived(message: Message) | TimedOut | Disconnected

  /** One turn of the receive loop: the callback it makes, if any, and whether it returns. */
  function OnArrival(a: Arrival): (seq<Chunk>, Consumer) {
    match a
    case Arrived(Part(chunk)) => ([chunk], if chunk.done then Returned(Completed) else Receiving)
    case Arrived(Fault(message)) => ([], Returned(Failed("ERR_MODEL_FAILED", message)))
    case TimedOut => ([], Returned(IDLE))
    case Disconnected => ([], Returned(DISCONNECTED))
  }

  /** What `recv_timeout` finds; `None` while it blocks. */
  function Arrives(p: Pipe, m: Move): Option<Arrival> {
    if p.consumer.Returned? || m.ProducerStep? then None
    else if m.IdleTimeout? then Some(TimedOut)
    else if p.channel != [] then Some(Arrived(p.channel[0]))
    else if p.producer.Dropped? then Some(Disconnected)
    else None
  }

  function Step(source: Source, p: Pipe, m: Move): Pipe {
    if m.ProducerStep? then StepProducer(source, p)
    else match Arrives(p, m)
      case None => p
      case Some(a) =>
        p.(channel := if a.Arrived? then p.channel[1..] else p.channel,
           calls := p.calls + OnArrival(a).0,
           consumer := OnArrival(a).1)
  }

  function Run(source: Source, moves: seq<Move>): Pipe {
    if moves == [] then OPENED
    else Step(source, Run(source, moves[..|moves| - 1]), moves[|moves| - 1])
  }

  // ---- the receive loop itself ----

  /** The loop over the first arrivals, up to the one at which it returns. */
  function Loop(arrivals: seq<Arrival>): (seq<Chunk>, Consumer) {
    if arrivals == [] then ([], Receiving)
    else
      var (calls, consumer) := Loop(arrivals[..|arrivals| - 1]);
      if consumer.Returned? then (calls, consumer)
      else (calls + OnArrival(arrivals[|arrivals| - 1]).0, OnArrival(arrivals[|arrivals| - 1]).1)
  }

  method ReceiveLoop(arrivals: seq<Arrival>) returns (calls: seq<Chunk>, consumer: Consumer)
    ensures (calls, consumer) == Loop(arrivals)
  {
    calls, consumer := [], Receiving;
    for i := 0 to |arrivals|
      invariant consumer.Receiving? && (calls, consumer) == Loop(arrivals[..i])
    {
      assert arrivals[..i + 1][..i] == arrivals[..i] && calls + [] == calls;
      match arrivals[i] {
        case Arrived(Part(chunk)) =>
          calls := calls + [chunk];
          if chunk.done {
            consumer := Returned(Completed);
          }
        case Arrived(Fault(message)) => consumer := Returned(Failed("ERR_MODEL_FAILED", message));
        case TimedOut => consumer := Returned(IDLE);
        case Disconnected => consumer := Returned(DISCONNECTED);
      }
      assert (calls, consumer) == Loop(arrivals[..i + 1]);
      if consumer.Returned? {
        LoopStops(arrivals, i + 1);
        return;
      }
    }
    assert arrivals[..|arrivals|] == arrivals;
  }

  lemma {:induction false} LoopStops(arrivals: seq<Arrival>, i: nat)
    requires i <= |arrivals| && Loop(arrivals[..i]).1.Returned?
    ensures Loop(arrivals) == Loop(arrivals[..i])
  {
    if i < |arrivals| {
      assert arrivals[..|arrivals| - 1][..i] == arrivals[..i];
      LoopStops(arrivals[..|arrivals| - 1], i);
    } else {
      assert arrivals[..i] == arrivals;
    }
  }

  /** What the receive loop was handed during a schedule. */
  function Arrivals(source: Source, moves: seq<Move>): seq<Arrival> {
    if moves == [] then []
    else
      var before := moves[..|moves| - 1];
      Arrivals(source, before)
      + match Arrives(Run(source, before), moves[|moves| - 1]) case Some(a) => [a] case None => []
  }

  /** The schedule's consumer is the receive loop. */
  lemma {:induction false} ScheduleRunsTheLoop(source: Source, moves: seq<Move>)
    ensures Loop(Arrivals(source, moves)) == (Run(source, moves).calls, Run(source, moves).consumer)
  {
    if moves != [] {
      var before := moves[..|moves| - 1];
      ScheduleRunsTheLoop(source, before);
      var p := Run(source, before);
      match Arrives(p, moves[|moves| - 1])
      case Some(a) => assert (Arrivals(source, before) + [a])[..|Arrivals(source, before)|] == Arrivals(source, before);
      case None => assert Arrivals(source, before) + [] == Arrivals(source, before);
    }
  }

  // ---- what every schedule keeps ----

  function Received(calls: seq<Chunk>): seq<Message> {
    seq(|calls|, i requires 0 <= i < |calls| => Part(calls[i]))
  }

  /** What the producer still has to send. */
  function Unsent(source: Source, producer: Producer): seq<Message> {
    match producer
    case Dropped => []
    case Reading(i) =>
      match source
      case Refusal(message) => [Fault(message)]
      case Verdicts(verdicts, endOfBody) => Messages(if i <= |verdicts| then verdicts[i..] else [], endOfBody)
  }

  /** Received, in flight and unsent messages are all messages; the calls never run past the first terminal
      one, which only a completed call has made. */
  ghost predicate Flowing(source: Source, p: Pipe) {
    var all := AllMessages(source);
    match p.consumer
    case Receiving =>
      && Received(p.calls) + p.channel + Unsent(source, p.producer) == all
      && (forall c :: c in p.calls ==> !c.done)
    case Returned(Completed) =>
      Received(p.calls) == all
    case Returned(Failed(code, _)) =>
      && code == "ERR_MODEL_FAILED"
      && Received(p.calls) <= all
      && (forall c :: c in p.calls ==> !c.done)
  }

  lemma Associate(a: seq<Message>, b: seq<Message>, c: seq<Message>)
    ensures a + b + c == a + (b + c)
  {
  }

  /** A producer step moves at most one message from unsent to the channel. */
  lemma ProducerConserves(source: Source, p: Pipe)
    requires p.consumer.Receiving?
    ensures var q := StepProducer(source, p);
            && q.consumer == p.consumer && q.calls == p.calls
            && q.channel + Unsent(source, q.producer) == p.channel + Unsent(source, p.producer)
  {
    var q := StepProducer(source, p);
    if p.producer.Reading? && source.Verdicts? && p.producer.next < |source.verdicts| {
      MessagesStep(source.verdicts, p.producer.next, source.endOfBody);
      var now := if source.verdicts[p.producer.next].Skip? then [] else [MessageOf(source.verdicts[p.producer.next])];
      Associate(p.channel, now, Unsent(source, q.producer));
    }
  }

  lemma ProducerFlows(source: Source, p: Pipe)
    requires Flowing(source, p)
    ensures Flowing(source, StepProducer(source, p))
  {
    if p.consumer.Receiving? {
      var q := StepProducer(source, p);
      ProducerConserves(source, p);
      Associate(Received(p.calls), p.channel, Unsent(source, p.producer));
      Associate(Received(p.calls), q.channel, Unsent(source, q.producer));
    }
  }

  lemma LastIsTerminal(source: Source)
    ensures var all := AllMessages(source);
            && all != [] && Terminal(all[|all| - 1])
            && (forall i :: 0 <= i < |all| - 1 ==> !Terminal(all[i]))
  {
    if source.Verdicts? {
      OneTerminalMessage(source.verdicts, source.endOfBody);
    }
  }

  /** The producer never drops the channel before a terminal message: the receiver cannot find it empty
      and disconnected. */
  lemma NeverDisconnected(source: Source, p: Pipe)
    requires Flowing(source, p) && p.consumer.Receiving?
    ensures p.channel != [] || p.producer.Reading?
  {
    LastIsTerminal(source);
    var calls := Received(p.calls);
    assert calls + [] + [] == calls;
    forall i | 0 <= i < |calls| ensures !Terminal(calls[i]) {
      assert p.calls[i] in p.calls;
    }
  }

  lemma ReceiveFlows(source: Source, p: Pipe)
    requires Flowing(source, p)
    ensures Flowing(source, Step(source, p, Receive))
  {
    var all, n := AllMessages(source), |p.calls|;
    if p.consumer.Receiving? {
      NeverDisconnected(source, p);
      if p.channel != [] {
        LastIsTerminal(source);
        var unsent := Unsent(source, p.producer);
        var rest := p.channel[1..] + unsent;
        assert all == Received(p.calls) + [p.channel[0]] + rest;
        assert all[n] == p.channel[0];
        if p.channel[0].Part? {
          assert Received(p.calls + [p.channel[0].chunk]) == Received(p.calls) + [p.channel[0]];
          if p.channel[0].chunk.done {
            assert n == |all| - 1;
            assert rest == [];
          } else {
            assert Received(p.calls + [p.channel[0].chunk]) + p.channel[1..] + unsent == all;
          }
        }
      }
    }
  }

  lemma TimeoutFlows(source: Source, p: Pipe)
    requires Flowing(source, p)
    ensures Flowing(source, Step(source, p, IdleTimeout))
  {
    if p.consumer.Receiving? {
      Associate(Received(p.calls), p.channel, Unsent(source, p.producer));
      assert p.calls + [] == p.calls;
    }
  }

  /** For every schedule of the producer, the channel and idle timeouts. */
  lemma {:induction false} EveryScheduleFlows(source: Source, moves: seq<Move>)
    ensures Flowing(source, Run(source, moves))
  {
    if moves == [] {
      assert Received([]) == [];
      if source.Verdicts? {
        assert source.verdicts[0..] == source.verdicts;
      }
    } else {
      var p := Run(source, moves[..|moves| - 1]);
      EveryScheduleFlows(source, moves[..|moves| - 1]);
      match moves[|moves| - 1]
      case ProducerStep => ProducerFlows(source, p);
      case Receive => ReceiveFlows(source, p);
      case IdleTimeout => TimeoutFlows(source, p);
    }
  }

  lemma {:induction false} PartsOfReceived(calls: seq<Chunk>, rest: seq<Message>)
    ensures Parts(Received(calls) + rest) == calls + Parts(rest)
  {
    if calls == [] {
      assert Received(calls) + rest == rest;
    } else {
      PartsOfReceived(calls[1..], rest);
      assert (Received(calls) + rest)[1..] == Received(calls[1..]) + rest;
    }
  }

  lemma TextsPrefix(a: seq<Chunk>, b: seq<Chunk>)
    ensures Texts(a) <= Texts(a + b)
  {
    if a != [] {
      TextsPrefix(a[1..], b);
      assert (a + b)[1..] == a[1..] + b;
    }
  }

  /** Done is called at most once, last, and exactly by a call that completes. */
  ghost predicate WellBehaved(calls: seq<Chunk>, outcome: Outcome) {
    && (forall i :: 0 <= i < |calls| - 1 ==> !calls[i].done)
    && (outcome.Completed? <==> calls != [] && calls[|calls| - 1].done)
  }

  lemma PrefixDelivers(calls: seq<Chunk>, all: seq<Message>)
    requires Received(calls) <= all
    ensures Texts(calls) <= Texts(Parts(all))
    ensures Received(calls) == all ==> Texts(calls) == Texts(Parts(all))
  {
    var rest := all[|calls|..];
    assert all == Received(calls) + rest;
    PartsOfReceived(calls, rest);
    TextsPrefix(calls, Parts(rest));
    if rest == [] {
      assert calls + Parts(rest) == calls;
    }
  }

  lemma FlowingIsPrefix(source: Source, p: Pipe)
    requires Flowing(source, p)
    ensures Received(p.calls) <= AllMessages(source)
  {
    if p.consumer.Receiving? {
      Associate(Received(p.calls), p.channel, Unsent(source, p.producer));
    }
  }

  lemma FlowingBehaves(source: Source, p: Pipe)
    requires Flowing(source, p) && p.consumer.Returned?
    ensures WellBehaved(p.calls, p.consumer.outcome)
  {
    LastIsTerminal(source);
    if p.consumer.outcome.Completed? {
      CompletedCalls(p.calls, AllMessages(source));
    } else {
      NoDoneCalls(p.calls);
    }
  }

  /** The contract of `generate_stream`, for every schedule: the deltas delivered are, in order, a prefix of
      those the provider's lines denote, and all of them when the call completes; the channel is never
      found disconnected. */
  lemma DeliveredDeltas(source: Source, moves: seq<Move>)
    ensures var p := Run(source, moves);
            && Texts(p.calls) <= Denoted(source)
            && (p.consumer == Returned(Completed) ==> Texts(p.calls) == Denoted(source))
            && (p.consumer.Returned? ==> WellBehaved(p.calls, p.consumer.outcome))
            && p.consumer != Returned(DISCONNECTED)
  {
    var p := Run(source, moves);
    EveryScheduleFlows(source, moves);
    FlowingIsPrefix(source, p);
    PrefixDelivers(p.calls, AllMessages(source));
    MessagesDenote(source);
    if p.consumer.Returned? {
      FlowingBehaves(source, p);
    }
  }

  lemma MessagesDenote(source: Source)
    ensures Texts(Parts(AllMessages(source))) == Denoted(source)
  {
    match source
    case Refusal(message) => assert Parts([Fault(message)]) == [];
    case Verdicts(verdicts, endOfBody) => MessagesCarryDeltas(verdicts, endOfBody);
  }

  lemma CompletedCalls(calls: seq<Chunk>, all: seq<Message>)
    requires Received(calls) == all && all != [] && Terminal(all[|all| - 1])
    requires forall i :: 0 <= i < |all| - 1 ==> !Terminal(all[i])
    ensures WellBehaved(calls, Completed)
  {
    forall i | 0 <= i < |calls| ensures calls[i].done == Terminal(all[i]) {
      assert all[i] == Part(calls[i]);
    }
  }

  lemma NoDoneCalls(calls: seq<Chunk>)
    requires forall c :: c in calls ==> !c.done
    ensures forall i :: 0 <= i < |calls| ==> !calls[i].done
  {
  }
}
