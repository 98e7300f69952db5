/** The line-by-line scan of both SSE parsers (src/model_provider.rs) against the event stream interpreter of
    section 9.2.6 of the WHATWG HTML Living Standard. The lines BufRead yields and the lines of the standard
    are compared first, then the payloads of `data:` lines and the events dispatched at blank lines, and last
    what the producers of Streaming make of either. */
module EventStreams {
  import opened Collections
  import opened Outcomes
  import opened Text
  import opened Streaming

  // ---- lines of a text ----

  /** The first CR or LF; `|s|` when there is none. */
  function LineBreak(s: string): (k: nat)
    ensures k <= |s|
    ensures k < |s| ==> s[k] == '\r' || s[k] == '\n'
    ensures forall i :: 0 <= i < k ==> s[i] != '\r' && s[i] != '\n'
  {
    if s == "" || s[0] == '\r' || s[0] == '\n' then 0 else 1 + LineBreak(s[1..])
  }

  /** Where the line after the first starts: past a CRLF, LF or CR. */
  function NextLine(s: string): (n: nat)
    ensures n <= |s|
    ensures s != "" ==> n > 0
  {
    var k := LineBreak(s);
    if k == |s| then k
    else if s[k] == '\r' && k + 1 < |s| && s[k + 1] == '\n' then k + 2
    else k + 1
  }

  /** The standard's lines: ended by CRLF, LF or CR. */
  function StandardLines(s: string): seq<string>
    decreases |s|
  {
    if s == "" then [] else [s[..LineBreak(s)]] + StandardLines(s[NextLine(s)..])
  }

  /** The first line that Rust's reader takes: up to the LF, without one CR before it. */
  function RustLine(s: string): string {
    var k := IndexOf(s, '\n');
    if 0 < k < |s| && s[k - 1] == '\r' then s[..k - 1] else s[..k]
  }

  /** What is left after that line. */
  function AfterRustLine(s: string): (rest: string)
    ensures s != "" ==> |rest| < |s|
  {
    var k := IndexOf(s, '\n');
    if k == |s| then "" else s[k + 1..]
  }

  /** Rust's `BufRead::lines`. */
  function RustLines(s: string): seq<string>
    decreases |s|
  {
    if s == "" then [] else [RustLine(s)] + RustLines(AfterRustLine(s))
  }

  /** What ends a line: the LF, with a CR just before it, or the end of the text. */
  function LineEnd(s: string): string {
    var k := IndexOf(s, '\n');
    if k == |s| then "" else if k > 0 && s[k - 1] == '\r' then "\r\n" else "\n"
  }

  lemma Rejoined(s: string, i: nat, j: nat)
    requires i <= j <= |s|
    ensures s == s[..i] + (s[i..j] + s[j..])
  {
  }

  lemma LineEndBetween(s: string)
    ensures |RustLine(s)| + |LineEnd(s)| + |AfterRustLine(s)| == |s|
    ensures s[|RustLine(s)|..|s| - |AfterRustLine(s)|] == LineEnd(s)
    ensures s[..|RustLine(s)|] == RustLine(s) && s[|s| - |AfterRustLine(s)|..] == AfterRustLine(s)
  {
  }

  /** A line ends at the first LF, with a CR just before it, or with the text; only that terminator is taken off. */
  lemma RustLineExactly(s: string)
    ensures s == RustLine(s) + (LineEnd(s) + AfterRustLine(s)) && '\n' !in RustLine(s)
    ensures LineEnd(s) == "\n" || LineEnd(s) == "\r\n" || (LineEnd(s) == "" && AfterRustLine(s) == "")
    ensures LineEnd(s) == "\n" && RustLine(s) != "" ==> RustLine(s)[|RustLine(s)| - 1] != '\r'
  {
    LineEndBetween(s);
    Rejoined(s, |RustLine(s)|, |s| - |AfterRustLine(s)|);
  }

  /** Every CR is the first half of a CRLF. */
  ghost predicate NoLoneCr(s: string) {
    forall i :: 0 <= i < |s| && s[i] == '\r' ==> i + 1 < |s| && s[i + 1] == '\n'
  }

  lemma BreakAndFeed(s: string)
    requires NoLoneCr(s)
    ensures var k, f := LineBreak(s), IndexOf(s, '\n');
            if k < |s| && s[k] == '\r' then f == k + 1 < |s| && s[k + 1] == '\n'
            else f == k && (k > 0 ==> s[k - 1] != '\r')
  {
    var k, f := LineBreak(s), IndexOf(s, '\n');
    assert k <= f;
    if k < |s| && s[k] == '\r' {
      assert s[k + 1] == '\n';
    }
  }

  lemma TailHasNoLoneCr(s: string, n: nat)
    requires n <= |s| && NoLoneCr(s)
    ensures NoLoneCr(s[n..])
  {
    var rest := s[n..];
    forall i | 0 <= i < |rest| && rest[i] == '\r' ensures i + 1 < |rest| && rest[i + 1] == '\n' {
      assert s[n + i] == '\r';
    }
  }

  lemma FirstLine(s: string)
    requires NoLoneCr(s) && s != ""
    ensures RustLine(s) == s[..LineBreak(s)] && AfterRustLine(s) == s[NextLine(s)..] && NoLoneCr(AfterRustLine(s))
  {
    BreakAndFeed(s);
    TailHasNoLoneCr(s, NextLine(s));
  }

  lemma {:induction false} SameLines(s: string)
    requires NoLoneCr(s)
    ensures RustLines(s) == StandardLines(s)
    decreases |s|
  {
    if s != "" {
      FirstLine(s);
      SameLines(AfterRustLine(s));
    }
  }

  // ---- the standard's interpreter ----

  /** The field name of a line that is not blank and not a comment. */
  function FieldName(line: string): string {
    line[..IndexOf(line, ':')]
  }

  /** Its value: what follows the colon, without one leading space. */
  function FieldValue(line: string): string {
    var k := IndexOf(line, ':');
    if k == |line| then ""
    else if k + 1 < |line| && line[k + 1] == ' ' then line[k + 2..]
    else line[k + 1..]
  }

  predicate IsDataField(line: string) {
    line != "" && line[0] != ':' && FieldName(line) == "data"
  }

  /** The data of the events dispatched, starting with a data buffer; an event not ended by a blank line is
      discarded. */
  function Events(lines: seq<string>, buffer: string): seq<string> {
    if lines == [] then []
    else if lines[0] == "" then
      (if buffer == "" then [] else [if buffer[|buffer| - 1] == '\n' then buffer[..|buffer| - 1] else buffer])
      + Events(lines[1..], "")
    else if IsDataField(lines[0]) then Events(lines[1..], buffer + FieldValue(lines[0]) + "\n")
    else Events(lines[1..], buffer)
  }

  // ---- the scan ----

  /** The payload both parsers take from a line. */
  function Payload(line: string): Option<string> {
    match StripPrefix(Trim(line), "data:")
    case None => None
    case Some(data) => Some(Trim(data))
  }

  function Payloads(lines: seq<string>): seq<string> {
    if lines == [] then []
    else (match Payload(lines[0]) case Some(p) => [p] case None => []) + Payloads(lines[1..])
  }

  function TrimAll(texts: seq<string>): seq<string> {
    if texts == [] then [] else [Trim(texts[0])] + TrimAll(texts[1..])
  }

  /** No line starts with white space, and no field is the bare word `data`. */
  ghost predicate Tidy(lines: seq<string>) {
    forall i :: 0 <= i < |lines| ==> (lines[i] != "" ==> !IsSpace(lines[i][0])) && lines[i] != "data"
  }

  predicate IsDataLine(line: string) {
    StartsWith(line, "data:")
  }

  /** Every event has at most one data line and, if it has one, is ended by a blank line. `seen` is whether
      the event under way has had its data line. */
  predicate OneDataLinePerEvent(lines: seq<string>, seen: bool) {
    if lines == [] then !seen
    else if lines[0] == "" then OneDataLinePerEvent(lines[1..], false)
    else if IsDataLine(lines[0]) then !seen && OneDataLinePerEvent(lines[1..], true)
    else OneDataLinePerEvent(lines[1..], seen)
  }

  // ---- trimming ----

  lemma {:induction false} TrimEndIsPrefix(s: string)
    ensures TrimEnd(s) <= s
    ensures TrimEnd(s) != "" ==> !IsSpace(TrimEnd(s)[|TrimEnd(s)| - 1])
    ensures forall i :: |TrimEnd(s)| <= i < |s| ==> IsSpace(s[i])
  {
    if s != "" && IsSpace(s[|s| - 1]) {
      TrimEndIsPrefix(s[..|s| - 1]);
    }
  }

  lemma {:induction false} TrimEndKeepsPrefix(p: string, s: string)
    requires p != "" && !IsSpace(p[|p| - 1])
    ensures TrimEnd(p + s) == p + TrimEnd(s)
  {
    if s == "" {
      assert p + s == p;
    } else {
      assert (p + s)[..|p + s| - 1] == p + s[..|s| - 1];
      if IsSpace(s[|s| - 1]) {
        TrimEndKeepsPrefix(p, s[..|s| - 1]);
      }
    }
  }

  lemma {:induction false} TrimEndTwice(s: string)
    ensures TrimEnd(TrimEnd(s)) == TrimEnd(s)
  {
    TrimEndIsPrefix(s);
  }

  /** Trimming at both ends can be done in either order. */
  lemma {:induction false} TrimOrder(s: string)
    ensures TrimStart(TrimEnd(s)) == TrimEnd(TrimStart(s))
  {
    if s != "" && IsSpace(s[0]) {
      TrimOrder(s[1..]);
      TrimEndIsPrefix(s);
      TrimEndTail(s);
    } else if s != "" {
      assert s == s[..1] + s[1..];
      TrimEndKeepsPrefix(s[..1], s[1..]);
    }
  }

  lemma {:induction false} TrimEndTail(s: string)
    requires s != "" && IsSpace(s[0])
    ensures if TrimEnd(s) == "" then TrimEnd(s[1..]) == ""
            else TrimEnd(s)[1..] == TrimEnd(s[1..]) && IsSpace(TrimEnd(s)[0])
  {
    if IsSpace(s[|s| - 1]) && |s| > 1 {
      TrimEndTail(s[..|s| - 1]);
      assert s[..|s| - 1][1..] == s[1..][..|s[1..]| - 1];
    }
  }

  lemma TrimOfTrimEnd(s: string)
    ensures Trim(TrimEnd(s)) == Trim(s)
  {
    TrimOrder(s);
    TrimEndTwice(TrimStart(s));
  }

  lemma DataLineField(rest: string)
    ensures IsDataField("data:" + rest)
    ensures FieldValue("data:" + rest) == if rest != "" && rest[0] == ' ' then rest[1..] else rest
  {
    var line := "data:" + rest;
    assert line[0] == 'd' && line[1] == 'a' && line[2] == 't' && line[3] == 'a' && line[4] == ':';
    assert IndexOf(line, ':') == 4 && line[..4] == "data" && line[5..] == rest;
    assert rest != "" ==> line[5] == rest[0] && line[6..] == rest[1..];
  }

  lemma DataLineTrimmed(rest: string)
    ensures Payload("data:" + rest) == Some(Trim(rest))
  {
    var line := "data:" + rest;
    assert line[0] == 'd' && TrimStart(line) == line;
    TrimEndKeepsPrefix("data:", rest);
    assert ("data:" + TrimEnd(rest))[5..] == TrimEnd(rest) && ("data:" + TrimEnd(rest))[..5] == "data:";
    TrimOfTrimEnd(rest);
  }

  /** On a tidy data line the scan's payload is the standard's field value, up to trimming. */
  lemma DataLinePayload(line: string)
    requires IsDataLine(line)
    ensures IsDataField(line) && Payload(line) == Some(Trim(FieldValue(line)))
  {
    var rest := line[5..];
    assert line == "data:" + rest;
    DataLineField(rest);
    DataLineTrimmed(rest);
  }

  lemma OtherLinePayload(line: string)
    requires !IsDataLine(line) && line != "" && !IsSpace(line[0]) && line != "data"
    ensures !IsDataField(line) && Payload(line) == None
  {
    TrimEndIsPrefix(line);
    assert Trim(line) == TrimEnd(line);
    assert |Trim(line)| >= 5 ==> line[..5] == Trim(line)[..5];
    var k := IndexOf(line, ':');
    assert 4 < |line| ==> line[..5] == line[..4] + [line[4]];
    assert "data:" == "data" + [':'];
    assert |line| == 4 ==> line[..4] == line;
  }

  /** The scan finds a payload per data line; the interpreter dispatches one event per block with data. */
  lemma {:induction false} CountsAgree(lines: seq<string>, buffer: string)
    requires Tidy(lines)
    ensures |Events(lines, buffer)| <= |Payloads(lines)| + (if buffer == "" then 0 else 1)
    ensures |Events(lines, buffer)| == |Payloads(lines)| + (if buffer == "" then 0 else 1)
            <==> OneDataLinePerEvent(lines, buffer != "")
  {
    if lines != [] {
      var rest := lines[1..];
      if lines[0] == "" {
        CountsAgree(rest, "");
        assert Payload("") == None;
      } else if IsDataLine(lines[0]) {
        DataLinePayload(lines[0]);
        CountsAgree(rest, buffer + FieldValue(lines[0]) + "\n");
      } else {
        OtherLinePayload(lines[0]);
        CountsAgree(rest, buffer);
      }
    }
  }

  /** The payloads still to come, given what the buffer holds: nothing, or one value and its line feed. */
  ghost predicate Owing(lines: seq<string>, buffer: string, value: string) {
    TrimAll(Events(lines, buffer)) == (if buffer == "" then [] else [Trim(value)]) + Payloads(lines)
  }

  lemma OwingAtBlank(rest: seq<string>, buffer: string, value: string)
    requires Owing(rest, "", "") && (buffer == "" || buffer == value + "\n")
    ensures Owing([""] + rest, buffer, value)
  {
    assert ([""] + rest)[1..] == rest;
    assert [] + Payloads(rest) == Payloads(rest) && [] + Events(rest, "") == Events(rest, "");
    assert Trim("") == "" && Payload("") == None;
    if buffer != "" {
      assert buffer[..|buffer| - 1] == value;
      assert ([value] + Events(rest, ""))[1..] == Events(rest, "");
    }
  }

  lemma OwingAtData(line: string, rest: seq<string>)
    requires IsDataLine(line) && Owing(rest, FieldValue(line) + "\n", FieldValue(line))
    ensures Owing([line] + rest, "", "")
  {
    DataLinePayload(line);
    assert ([line] + rest)[1..] == rest;
    assert "" + FieldValue(line) + "\n" == FieldValue(line) + "\n";
  }

  lemma OwingAtOther(line: string, rest: seq<string>, buffer: string, value: string)
    requires !IsDataLine(line) && line != "" && !IsSpace(line[0]) && line != "data" && Owing(rest, buffer, value)
    ensures Owing([line] + rest, buffer, value)
  {
    OtherLinePayload(line);
    assert ([line] + rest)[1..] == rest;
    assert [] + Payloads(rest) == Payloads(rest);
  }

  lemma {:induction false} EventsArePayloads(lines: seq<string>, buffer: string, value: string)
    requires Tidy(lines) && OneDataLinePerEvent(lines, buffer != "")
    requires buffer == "" || buffer == value + "\n"
    ensures Owing(lines, buffer, value)
  {
    if lines != [] {
      var line, rest := lines[0], lines[1..];
      assert lines == [line] + rest;
      if line == "" {
        EventsArePayloads(rest, "", "");
        OwingAtBlank(rest, buffer, value);
      } else if IsDataLine(line) {
        EventsArePayloads(rest, FieldValue(line) + "\n", FieldValue(line));
        OwingAtData(line, rest);
      } else {
        EventsArePayloads(rest, buffer, value);
        OwingAtOther(line, rest, buffer, value);
      }
    }
  }

  lemma TrimAllLength(texts: seq<string>)
    ensures |TrimAll(texts)| == |texts|
  {
  }

  /** On a tidy stream the scan agrees with the standard, up to trimming, exactly when no event has two data
      lines and none is left unfinished with one. */
  lemma ScanAgreesWithStandard(stream: string)
    requires NoLoneCr(stream) && Tidy(StandardLines(stream))
    ensures Payloads(RustLines(stream)) == TrimAll(Events(StandardLines(stream), ""))
            <==> OneDataLinePerEvent(StandardLines(stream), false)
  {
    var lines := StandardLines(stream);
    SameLines(stream);
    CountsAgree(lines, "");
    TrimAllLength(Events(lines, ""));
    if OneDataLinePerEvent(lines, false) {
      EventsArePayloads(lines, "", "");
    }
  }

  // ---- what this means for the producers ----

  /** How a producer reacts to a payload. */
  function ReadPayload(t: Transport, d: Decoder, payload: string): Verdict
    requires t != Ollama
  {
    if t == OpenAiCompatible then ReadOpenAiData(d, payload) else ReadAnthropicData(d, payload)
  }

  lemma ReadsOnlyThePayload(t: Transport, d: Decoder, line: string)
    requires t != Ollama
    ensures Read(t, d, Text(line))
         == match Payload(line) case Some(p) => ReadPayload(t, d, p) case None => Skip
  {
    assert StartsWith(Trim(line), "data:") ==> Trim(line)[0] == 'd';
  }

  function Reactions(t: Transport, d: Decoder, payloads: seq<string>): seq<Verdict>
    requires t != Ollama
  {
    if payloads == [] then [] else [ReadPayload(t, d, payloads[0])] + Reactions(t, d, payloads[1..])
  }

  function TextLines(texts: seq<string>): seq<Line> {
    if texts == [] then [] else [Line.Text(texts[0])] + TextLines(texts[1..])
  }

  /** What the producer makes of lines of text, one verdict a line. */
  function LineVerdicts(t: Transport, d: Decoder, lines: seq<string>): seq<Verdict> {
    Each(Reader(t, d), TextLines(lines))
  }

  lemma FirstVerdict(t: Transport, d: Decoder, lines: seq<string>)
    requires lines != []
    ensures LineVerdicts(t, d, lines) == [Read(t, d, Line.Text(lines[0]))] + LineVerdicts(t, d, lines[1..])
  {
    EachCons(Reader(t, d), Line.Text(lines[0]), TextLines(lines[1..]));
  }

  lemma SkipSendsNothing(rest: seq<Verdict>, endOfBody: string)
    ensures Messages([Skip] + rest, endOfBody) == Messages(rest, endOfBody)
  {
    assert ([Skip] + rest)[1..] == rest;
  }

  lemma SameFirst(v: Verdict, a: seq<Verdict>, b: seq<Verdict>, endOfBody: string)
    requires Messages(a, endOfBody) == Messages(b, endOfBody)
    ensures Messages([v] + a, endOfBody) == Messages([v] + b, endOfBody)
  {
    assert ([v] + a)[1..] == a && ([v] + b)[1..] == b;
  }

  /** The first line contributes its payload's reaction, or a skip. */
  lemma FirstReaction(t: Transport, d: Decoder, lines: seq<string>)
    requires t != Ollama && lines != []
    ensures var reactions := Reactions(t, d, Payloads(lines[1..]));
            Reactions(t, d, Payloads(lines))
            == match Payload(lines[0]) case None => reactions case Some(p) => [ReadPayload(t, d, p)] + reactions
  {
    var rest := Payloads(lines[1..]);
    match Payload(lines[0])
    case None => assert Payloads(lines) == rest;
    case Some(p) => assert Payloads(lines) == [p] + rest && Payloads(lines)[1..] == rest;
  }

  lemma {:induction false} MessagesFollowPayloads(t: Transport, d: Decoder, lines: seq<string>, endOfBody: string)
    requires t != Ollama
    ensures Messages(LineVerdicts(t, d, lines), endOfBody) == Messages(Reactions(t, d, Payloads(lines)), endOfBody)
  {
    if lines != [] {
      var rest := LineVerdicts(t, d, lines[1..]);
      MessagesFollowPayloads(t, d, lines[1..], endOfBody);
      FirstReaction(t, d, lines);
      FirstVerdict(t, d, lines);
      ReadsOnlyThePayload(t, d, lines[0]);
      SkipSendsNothing(rest, endOfBody);
      SameFirst(Read(t, d, Text(lines[0])), rest, Reactions(t, d, Payloads(lines[1..])), endOfBody);
    }
  }

  /** On such a stream both SSE producers send exactly what the standard's events, trimmed, make them send. */
  lemma ProducersFollowEvents(t: Transport, d: Decoder, stream: string)
    requires t != Ollama && NoLoneCr(stream) && Tidy(StandardLines(stream))
    requires OneDataLinePerEvent(StandardLines(stream), false)
    ensures AllMessages(SourceOf(t, d, Body(TextLines(RustLines(stream)))))
         == Messages(Reactions(t, d, TrimAll(Events(StandardLines(stream), ""))), EndOfBody(t))
  {
    ScanAgreesWithStandard(stream);
    MessagesFollowPayloads(t, d, RustLines(stream), EndOfBody(t));
  }
}
