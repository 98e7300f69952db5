/** What a conforming provider puts on the wire for a list of deltas, and that the stream parsers of
    src/model_provider.rs read exactly those deltas back. */
module ProviderStreams {
  import opened Outcomes
  import opened Text
  import opened EventStreams
  import Framing
  import Gateway
  import opened Streaming

  /** The provider's JSON writer, and its writer of Ollama's stream lines. */
  datatype Encoder = Encoder(json: Json -> string, ollama: (string, bool) -> string)

  /** A JSON object in text has no white space around it. */
  predicate Bare(text: string) {
    |text| >= 2 && text[0] == '{' && text[|text| - 1] == '}'
  }

  function OpenAiEvent(text: string): Json {
    JObject(map["choices" := JArray([JObject(map["delta" := JObject(map["content" := JString(text)])])])])
  }

  function AnthropicEvent(text: string): Json {
    JObject(map["type" := JString("content_block_delta"),
                "delta" := JObject(map["type" := JString("text_delta"), "text" := JString(text)])])
  }

  const STOP_EVENT := JObject(map["type" := JString("message_stop")])

  ghost predicate ReadsBack(e: Encoder, d: Decoder, event: Json) {
    Bare(e.json(event)) && d.json(e.json(event)) == Success(event)
  }

  /** The parsers read back the events that carry a delta or end a stream. */
  ghost predicate Agree(e: Encoder, d: Decoder) {
    && (forall text :: ReadsBack(e, d, OpenAiEvent(text)))
    && (forall text :: ReadsBack(e, d, AnthropicEvent(text)))
    && ReadsBack(e, d, STOP_EVENT)
    && (forall text, done :: Bare(e.ollama(text, done)) && d.ollama(e.ollama(text, done)) == Success((text, done)))
  }

  /** A delta, or a line that carries none: blank, a comment, or a field other than `data`. */
  datatype Item = Delta(text: string) | Noise(line: string)

  predicate IsNoise(t: Transport, line: string) {
    if t == Ollama then Trim(line) == "" else !StartsWith(Trim(line), "data:")
  }

  ghost predicate WellFormed(t: Transport, items: seq<Item>) {
    forall i :: 0 <= i < |items| && items[i].Noise? ==> IsNoise(t, items[i].line)
  }

  function DeltaLine(t: Transport, e: Encoder, text: string): string {
    match t
    case Ollama => e.ollama(text, false)
    case OpenAiCompatible => "data: " + e.json(OpenAiEvent(text))
    case Anthropic => "data: " + e.json(AnthropicEvent(text))
  }

  function LastLine(t: Transport, e: Encoder): string {
    match t
    case Ollama => e.ollama("", true)
    case OpenAiCompatible => "data: [DONE]"
    case Anthropic => "data: " + e.json(STOP_EVENT)
  }

  function LinesOf(t: Transport, e: Encoder, items: seq<Item>, after: seq<Line>): seq<Line> {
    if items == [] then [Line.Text(LastLine(t, e))] + after
    else
      [Line.Text(match items[0] case Delta(text) => DeltaLine(t, e, text) case Noise(line) => line)]
      + LinesOf(t, e, items[1..], after)
  }

  function TextsOf(items: seq<Item>): seq<string> {
    if items == [] then [""]
    else (if items[0].Delta? then [items[0].text] else []) + TextsOf(items[1..])
  }

  lemma BareIsTrimmed(text: string)
    requires text != "" && !IsSpace(text[0]) && !IsSpace(text[|text| - 1])
    ensures Trim(text) == text && Trim(" " + text) == text
  {
    assert TrimStart(" " + text) == text by {
      assert (" " + text)[1..] == text;
    }
  }

  /** The payload of a `data` line is what was put in it. */
  lemma DataLine(payload: string)
    requires payload != "" && !IsSpace(payload[0]) && !IsSpace(payload[|payload| - 1])
    ensures Payload("data: " + payload) == Some(payload)
  {
    var line := "data: " + payload;
    BareIsTrimmed(line);
    assert line[..5] == "data:" && line[5..] == " " + payload;
    BareIsTrimmed(payload);
  }

  lemma DeltaIsSent(t: Transport, e: Encoder, d: Decoder, text: string)
    requires Agree(e, d)
    ensures Read(t, d, Line.Text(DeltaLine(t, e, text))) == Send(text)
  {
    match t
    case Ollama => BareIsTrimmed(e.ollama(text, false));
    case OpenAiCompatible =>
      OpenAiEventIsSent(e, d, text);
      ReadsOnlyThePayload(t, d, DeltaLine(t, e, text));
    case Anthropic =>
      AnthropicEventIsSent(e, d, text);
      ReadsOnlyThePayload(t, d, DeltaLine(t, e, text));
  }

  lemma OpenAiEventIsSent(e: Encoder, d: Decoder, text: string)
    requires Agree(e, d)
    ensures var payload := e.json(OpenAiEvent(text));
            Payload("data: " + payload) == Some(payload) && ReadOpenAiData(d, payload) == Send(text)
  {
    var payload := e.json(OpenAiEvent(text));
    assert ReadsBack(e, d, OpenAiEvent(text)) && "[DONE]"[0] != '{';
    DataLine(payload);
  }

  lemma AnthropicEventIsSent(e: Encoder, d: Decoder, text: string)
    requires Agree(e, d)
    ensures var payload := e.json(AnthropicEvent(text));
            Payload("data: " + payload) == Some(payload) && ReadAnthropicData(d, payload) == Send(text)
  {
    var payload := e.json(AnthropicEvent(text));
    assert ReadsBack(e, d, AnthropicEvent(text));
    DataLine(payload);
  }

  lemma DoneMarkIsFinish(e: Encoder, d: Decoder)
    ensures Read(OpenAiCompatible, d, Line.Text(LastLine(OpenAiCompatible, e))) == Finish("")
  {
    DataLine("[DONE]");
    ReadsOnlyThePayload(OpenAiCompatible, d, "data: [DONE]");
  }

  lemma StopEventIsFinish(e: Encoder, d: Decoder)
    requires Agree(e, d)
    ensures Read(Anthropic, d, Line.Text(LastLine(Anthropic, e))) == Finish("")
  {
    var payload := e.json(STOP_EVENT);
    assert ReadsBack(e, d, STOP_EVENT);
    DataLine(payload);
    ReadsOnlyThePayload(Anthropic, d, "data: " + payload);
  }

  lemma LastIsFinish(t: Transport, e: Encoder, d: Decoder)
    requires Agree(e, d)
    ensures Read(t, d, Line.Text(LastLine(t, e))) == Finish("")
  {
    match t
    case Ollama => BareIsTrimmed(e.ollama("", true));
    case OpenAiCompatible => DoneMarkIsFinish(e, d);
    case Anthropic => StopEventIsFinish(e, d);
  }

  lemma NoiseIsSkipped(t: Transport, d: Decoder, line: string)
    requires IsNoise(t, line)
    ensures Read(t, d, Line.Text(line)) == Skip
  {
    if t != Ollama {
      ReadsOnlyThePayload(t, d, line);
    }
  }

  /** One more reaction in front of what is heard after it. */
  function Before(v: Verdict, later: seq<string>): seq<string> {
    match v
    case Skip => later
    case Send(delta) => [delta] + later
    case Finish(last) => [last]
    case Abort(_) => []
  }

  lemma HeardCons(v: Verdict, later: seq<Verdict>)
    ensures Deltas(Heard([v] + later)) == Before(v, Deltas(Heard(later)))
  {
    var verdicts := [v] + later;
    assert verdicts[..1] == [v] && verdicts[1..] == later;
    if v.Skip? || v.Send? {
      assert Heard(verdicts) == [v] + Heard(later);
      assert ([v] + Heard(later))[1..] == Heard(later);
      assert [] + Deltas(Heard(later)) == Deltas(Heard(later));
    } else {
      assert Heard(verdicts) == [v] && [v][1..] == [];
    }
  }

  lemma HeardOne(t: Transport, d: Decoder, line: Line, rest: seq<Line>)
    ensures Denoted(SourceOf(t, d, Body([line] + rest)))
         == Before(Read(t, d, line), Denoted(SourceOf(t, d, Body(rest))))
  {
    EachCons(Reader(t, d), line, rest);
    HeardCons(Reader(t, d)(line), Each(Reader(t, d), rest));
  }

  /** For every provider, encoder and list of deltas, with any noise in between and anything after the end:
      the body denotes exactly those deltas and the empty last one. */
  lemma {:induction false} DeltasReadBack(t: Transport, e: Encoder, d: Decoder, items: seq<Item>, after: seq<Line>)
    requires Agree(e, d) && WellFormed(t, items)
    ensures Denoted(SourceOf(t, d, Body(LinesOf(t, e, items, after)))) == TextsOf(items)
  {
    if items == [] {
      LastIsFinish(t, e, d);
      HeardOne(t, d, Line.Text(LastLine(t, e)), after);
    } else {
      var rest := LinesOf(t, e, items[1..], after);
      DeltasReadBack(t, e, d, items[1..], after);
      match items[0]
      case Delta(text) =>
        DeltaIsSent(t, e, d, text);
        HeardOne(t, d, Line.Text(DeltaLine(t, e, text)), rest);
      case Noise(line) =>
        NoiseIsSkipped(t, d, line);
        HeardOne(t, d, Line.Text(line), rest);
        assert [] + TextsOf(items[1..]) == TextsOf(items[1..]);
    }
  }

  /** End to end: what a conforming provider was asked to stream is what the client's callback gets, a prefix
      of it when an error frame ends the stream and all of it otherwise. */
  lemma ConformingProviderToClient(codec: Framing.Codec, request: Gateway.Request, config: Gateway.Config,
                                   remaining: nat, t: Transport, e: Encoder, d: Decoder, items: seq<Item>,
                                   after: seq<Line>, moves: seq<Move>)
    requires codec.Faithful() && Agree(e, d) && WellFormed(t, items)
    requires var source := SourceOf(t, d, Body(LinesOf(t, e, items, after)));
             var p := Run(source, moves);
             && p.consumer.Returned?
             && var call := Gateway.Exchange(request, config, remaining, Gateway.Call(p.calls, p.consumer.outcome));
             Framing.AllFit(codec, Gateway.Frames(request.requestId, call))
    ensures var p := Run(SourceOf(t, d, Body(LinesOf(t, e, items, after))), moves);
            var call := Gateway.Exchange(request, config, remaining, Gateway.Call(p.calls, p.consumer.outcome));
            var (dispatched, outcome) :=
              Framing.Client(codec, Framing.Wire(codec, Gateway.Frames(request.requestId, call)));
            && outcome == Framing.DoneSeen && dispatched != []
            && Gateway.FrameDeltas(dispatched) <= TextsOf(items)
            && (dispatched[|dispatched| - 1].error == None ==> Gateway.FrameDeltas(dispatched) == TextsOf(items))
  {
    Framing.ProviderToClient(codec, request, config, remaining, t, d, Body(LinesOf(t, e, items, after)), moves);
    DeltasReadBack(t, e, d, items, after);
  }
}
