/**
 * The server's `/api/stream` handler (src/main.rs): a model named
 * "cloud:<name>" gets a canned demo reply streamed word by word; any other
 * model is forwarded to the local Ollama server and each line of its NDJSON
 * answer becomes server-sent events. Events are their data strings here;
 * the HTTP request to Ollama is given as its outcome.
 */
module StreamHandler {
  import opened Wrappers
  import opened Strings

  datatype PromptRequest = PromptRequest(model: string, prompt: string)

  const CloudPrefix := "cloud:"
  const EndMarker := "__END__"
  const UnreachableEvent := "[Error: Ollama not reachable]"
  const PromptQuoteLimit: nat := 100

  datatype Route = CloudDemo(cloudModel: string) | LocalModel(model: string)

  /** Models named "cloud:<name>" take the demo path with the prefix stripped. */
  function RouteOf(model: string): (r: Route)
    ensures r.CloudDemo? <==> StartsWith(model, CloudPrefix)
    ensures r.CloudDemo? ==> CloudPrefix + r.cloudModel == model
    ensures r.LocalModel? ==> r.model == model
  {
    if StartsWith(model, CloudPrefix) then
      assert model == model[..|CloudPrefix|] + model[|CloudPrefix|..];
      CloudDemo(model[|CloudPrefix|..])
    else LocalModel(model)
  }

  const DemoOpening := "[Cloud Demo] You asked: \""

  /** The canned reply: quotes at most the first 100 characters of the prompt and names the model. */
  function DemoText(prompt: string, cloudModel: string): (text: string)
    ensures var quoted := Take(prompt, PromptQuoteLimit);
      && StartsWith(text, DemoOpening + quoted + "\"")
      && |quoted| <= PromptQuoteLimit
      && (|prompt| <= PromptQuoteLimit ==> quoted == prompt)
      && quoted == prompt[..|quoted|]
  {
    var quoted := Take(prompt, PromptQuoteLimit);
    var head := DemoOpening + quoted + "\"";
    var text := head + "\n\nThis is a simulated response from cloud model '" + cloudModel + "'. "
      + "In a production environment, this would connect to the actual Ollama Cloud API "
      + "to process your request using cloud-hosted models.\n\n"
      + "To use real cloud models, you'll need to:\n"
      + "1. Sign up for Ollama Cloud at ollama.com\n"
      + "2. Get your API credentials\n"
      + "3. Configure the cloud endpoint in your settings";
    assert text[..|head|] == head;
    text
  }

  /** One event per word, the word followed by a space. */
  function WordEvents(words: seq<string>): (evs: seq<string>)
    ensures |evs| == |words|
    ensures forall i :: 0 <= i < |words| ==> evs[i] == words[i] + " "
  {
    seq(|words|, i requires 0 <= i < |words| => words[i] + " ")
  }

  /** The demo stream: one event per whitespace-separated word, then exactly one end marker. */
  function DemoEvents(text: string): (evs: seq<string>)
    ensures |evs| == |SplitWhitespace(text)| + 1
    ensures evs[|evs| - 1] == EndMarker
    ensures forall i :: 0 <= i < |evs| - 1 ==> evs[i] == SplitWhitespace(text)[i] + " "
  {
    WordEvents(SplitWhitespace(text)) + [EndMarker]
  }

  /** A word event contributes its word. */
  lemma NonSpaceWordEvent(w: string, rest: string)
    requires NoSpace(w)
    ensures NonSpace(w + " " + rest) == w + NonSpace(rest)
  {
    var spaced := " " + rest;
    assert w + " " + rest == w + spaced;
    assert NonSpace(spaced) == NonSpace(rest) by {
      assert spaced[0] == ' ' && spaced[1..] == rest;
    }
    NonSpaceAppend(w, spaced);
    NonSpaceWord(w);
  }

  lemma WordEventsTail(words: seq<string>)
    requires words != []
    ensures Concat(WordEvents(words)) == words[0] + " " + Concat(WordEvents(words[1..]))
  {
    var evs := WordEvents(words);
    assert evs[1..] == WordEvents(words[1..]);
  }

  lemma {:induction false} WordEventsKeepText(words: seq<string>)
    requires forall i :: 0 <= i < |words| ==> NoSpace(words[i])
    ensures NonSpace(Concat(WordEvents(words))) == Concat(words)
    decreases |words|
  {
    if words != [] {
      WordEventsTail(words);
      WordEventsKeepText(words[1..]);
      NonSpaceWordEvent(words[0], Concat(WordEvents(words[1..])));
    }
  }

  /**
   * The demo events before the end marker carry exactly the reply's
   * non-whitespace characters, in order: only spacing differs.
   */
  lemma DemoEventsKeepText(text: string)
    ensures var evs := DemoEvents(text); NonSpace(Concat(evs[..|evs| - 1])) == NonSpace(text)
  {
    var words := SplitWhitespace(text);
    var evs := DemoEvents(text);
    assert evs[..|evs| - 1] == WordEvents(words);
    WordEventsKeepText(words);
    SplitWhitespaceKeepsText(text);
  }

  /** A line of Ollama's answer after JSON parsing: its string `response`, if any, and its `done` flag (false unless a boolean true). */
  datatype ParsedLine = NotJson | Json(response: Option<string>, done: bool)

  /** One read from the line decoder: a line, or a decoding or transport error. */
  datatype LineRead = Line(parsed: ParsedLine) | LineError

  /** The events for one line: its response text, then the end marker when it is the last. */
  function LineEvents(p: ParsedLine): (evs: seq<string>)
    ensures p.NotJson? ==> evs == []
    ensures p.Json? ==> |evs| == (if p.response.Some? then 1 else 0) + (if p.done then 1 else 0)
    ensures p.Json? && p.response.Some? ==> evs[0] == p.response.value
    ensures p.Json? && p.done ==> evs[|evs| - 1] == EndMarker
  {
    match p
    case NotJson => []
    case Json(response, done) =>
      (if response.Some? then [response.value] else []) + (if done then [EndMarker] else [])
  }

  /**
   * Whether a line's events can be built: an SSE field value may not hold a
   * carriage return, and building the event for a response that has one
   * panics, which ends the stream at that line.
   */
  predicate Sendable(p: ParsedLine)
  {
    p.NotJson? || p.response.None? || '\r' !in p.response.value
  }

  /** A read the stream gets past: a line, and one whose events can be built. */
  predicate Passes(l: LineRead)
  {
    l.Line? && Sendable(l.parsed)
  }

  predicate AllPass(lines: seq<LineRead>)
  {
    forall i :: 0 <= i < |lines| ==> Passes(lines[i])
  }

  /**
   * The events for Ollama's answer: line by line, ending at the first read
   * error or at the first response holding a carriage return. No event sent
   * holds one.
   */
  function Translate(lines: seq<LineRead>): (evs: seq<string>)
    ensures |evs| <= 2 * |lines|
    ensures forall i :: 0 <= i < |evs| ==> '\r' !in evs[i]
    decreases |lines|
  {
    if lines == [] || !Passes(lines[0]) then []
    else
      var head := LineEvents(lines[0].parsed);
      assert forall i :: 0 <= i < |head| ==> '\r' !in head[i];
      head + Translate(lines[1..])
  }

  /** Translation works line by line: error-free lines followed by more lines translate piecewise. */
  lemma {:induction false} TranslateConcat(a: seq<LineRead>, b: seq<LineRead>)
    requires AllPass(a)
    ensures Translate(a + b) == Translate(a) + Translate(b)
    decreases |a|
  {
    if a == [] {
      assert a + b == b;
    } else {
      assert (a + b)[1..] == a[1..] + b;
      TranslateConcat(a[1..], b);
    }
  }

  /** Nothing from a read error or a response with a carriage return onwards reaches the browser. */
  lemma TranslateStopsAtError(a: seq<LineRead>, stop: LineRead, b: seq<LineRead>)
    requires AllPass(a) && !Passes(stop)
    ensures Translate(a + [stop] + b) == Translate(a)
  {
    TranslateConcat(a, [stop] + b);
    assert a + [stop] + b == a + ([stop] + b);
  }

  /** A response holding a carriage return ends the stream: neither it nor a later `done` is sent. */
  lemma CarriageReturnEndsStream()
    ensures Translate([Line(Json(Some("a\rb"), false)), Line(Json(Some("c"), true))]) == []
  {
    assert "a\rb"[1] == '\r';
  }

  /** A well-formed generation: every line has a response without a carriage return, and only the last says done. */
  predicate WellFormedAnswer(lines: seq<LineRead>)
  {
    && |lines| > 0
    && (forall i :: 0 <= i < |lines| ==> lines[i].Line? && lines[i].parsed.Json? && lines[i].parsed.response.Some?)
    && (forall i :: 0 <= i < |lines| ==> lines[i].parsed.done == (i == |lines| - 1))
    && AllPass(lines)
  }

  function Responses(lines: seq<LineRead>): seq<string>
    requires forall i :: 0 <= i < |lines| ==> lines[i].Line? && lines[i].parsed.Json? && lines[i].parsed.response.Some?
  {
    seq(|lines|, i requires 0 <= i < |lines| && lines[i].Line? && lines[i].parsed.Json? && lines[i].parsed.response.Some?
      => lines[i].parsed.response.value)
  }

  /** A well-formed generation streams every response text in order and then one end marker. */
  lemma {:induction false} WellFormedAnswerEvents(lines: seq<LineRead>)
    requires WellFormedAnswer(lines)
    ensures Translate(lines) == Responses(lines) + [EndMarker]
    decreases |lines|
  {
    var n := |lines|;
    if n == 1 {
      assert Translate(lines) == LineEvents(lines[0].parsed) + Translate([]);
    } else {
      var front, last := lines[..n - 1], lines[n - 1..];
      assert lines == front + last;
      assert AllPass(front);
      TranslateConcat(front, last);
      FrontEvents(front);
      assert Translate(last) == LineEvents(lines[n - 1].parsed) + Translate([]);
      assert Responses(lines) == Responses(front) + [lines[n - 1].parsed.response.value];
    }
  }

  /** Lines that each have a response and are not done stream just their responses. */
  lemma {:induction false} FrontEvents(lines: seq<LineRead>)
    requires forall i :: 0 <= i < |lines| ==> lines[i].Line? && lines[i].parsed.Json? && lines[i].parsed.response.Some?
    requires forall i :: 0 <= i < |lines| ==> !lines[i].parsed.done
    requires AllPass(lines)
    ensures Translate(lines) == Responses(lines)
    decreases |lines|
  {
    if lines != [] {
      FrontEvents(lines[1..]);
      assert Responses(lines) == [lines[0].parsed.response.value] + Responses(lines[1..]);
    }
  }

  /** What came of the request to the local Ollama server. */
  datatype Upstream = Unreachable | Answered(lines: seq<LineRead>)

  /** `stream_handler`: the events sent to the browser for one request. */
  function Handle(req: PromptRequest, upstream: Upstream): (evs: seq<string>)
    ensures StartsWith(req.model, CloudPrefix) ==>
      evs == DemoEvents(DemoText(req.prompt, req.model[|CloudPrefix|..]))
    ensures !StartsWith(req.model, CloudPrefix) && upstream.Unreachable? ==> evs == [UnreachableEvent]
    ensures !StartsWith(req.model, CloudPrefix) && upstream.Answered? ==> evs == Translate(upstream.lines)
  {
    match RouteOf(req.model)
    case CloudDemo(name) => DemoEvents(DemoText(req.prompt, name))
    case LocalModel(_) =>
      match upstream
      case Unreachable => [UnreachableEvent]
      case Answered(lines) => Translate(lines)
  }

  /** The demo words are whitespace-free, so no demo event holds a carriage return. */
  lemma DemoEventsNoCarriageReturn(text: string)
    ensures forall i :: 0 <= i < |DemoEvents(text)| ==> '\r' !in DemoEvents(text)[i]
  {
    var evs := DemoEvents(text);
    var words := SplitWhitespace(text);
    forall i | 0 <= i < |evs| ensures '\r' !in evs[i] {
      if i < |evs| - 1 {
        assert evs[i] == words[i] + " ";
        assert NoSpace(words[i]);
        forall j | 0 <= j < |words[i]| ensures words[i][j] != '\r' {
          assert !IsSpace(words[i][j]);
        }
      }
    }
  }

  /** Whatever the route, every event the handler builds is a valid field value: no carriage return, so no panic. */
  lemma HandleSendsNoCarriageReturn(req: PromptRequest, upstream: Upstream)
    ensures forall i :: 0 <= i < |Handle(req, upstream)| ==> '\r' !in Handle(req, upstream)[i]
  {
    if StartsWith(req.model, CloudPrefix) {
      DemoEventsNoCarriageReturn(DemoText(req.prompt, req.model[|CloudPrefix|..]));
    }
  }

  /** The demo path does not depend on the local server at all. */
  lemma CloudIgnoresUpstream(req: PromptRequest, u: Upstream, v: Upstream)
    requires StartsWith(req.model, CloudPrefix)
    ensures Handle(req, u) == Handle(req, v)
  {
  }
}
