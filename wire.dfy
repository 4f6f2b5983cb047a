/**
 * The two ends of `/api/stream` together: events written as server-sent
 * event frames ("data: <event>" and a blank line) and read back by the chat
 * view's line scanner in one chunk.
 */
module Wire {
  import opened Wrappers
  import opened Strings
  import Chat
  import StreamHandler

  function Frame(e: string): string
  {
    "data: " + e + "\n\n"
  }

  /** The body of a stream of events. */
  function Framed(evs: seq<string>): (body: string)
    ensures body == [] <==> evs == []
    ensures |body| >= 8 * |evs|
  {
    if evs == [] then [] else Frame(evs[0]) + Framed(evs[1..])
  }

  /** The lines the browser sees in that body. */
  function FrameLines(evs: seq<string>): seq<string>
  {
    if evs == [] then [] else ["data: " + evs[0], ""] + FrameLines(evs[1..])
  }

  /** An event that is written as one data line. */
  predicate SingleLine(e: string)
  {
    '\n' !in e && (e == [] || e[|e| - 1] != '\r')
  }

  lemma DataLine(e: string)
    requires SingleLine(e)
    ensures '\n' !in "data: " + e
    ensures StripCr("data: " + e) == "data: " + e
  {
    var line := "data: " + e;
    forall i | 0 <= i < |line| ensures line[i] != '\n' {
      if i >= 6 {
        assert line[i] == e[i - 6];
      }
    }
    if e != [] {
      assert line[|line| - 1] == e[|e| - 1];
    }
  }

  lemma LinesAfterEmptyLine(rest: string)
    ensures Lines("\n" + rest) == [""] + Lines(rest)
  {
    var s := "\n" + rest;
    assert s[0] == '\n';
    assert IndexOf(s, '\n') == 0;
    assert s[..0] == [];
    assert s[1..] == rest;
  }

  lemma LinesTwo(line: string, rest: string)
    requires '\n' !in line && StripCr(line) == line
    ensures Lines(line + "\n" + ("\n" + rest)) == [line, ""] + Lines(rest)
  {
    LinesAfterLine(line, "\n" + rest);
    LinesAfterEmptyLine(rest);
    ConsPair(line, "", Lines(rest));
  }

  lemma ConsPair(a: string, b: string, rest: seq<string>)
    ensures [a] + ([b] + rest) == [a, b] + rest
  {
  }

  lemma FrameSplit(e: string, rest: string)
    ensures Frame(e) + rest == ("data: " + e) + "\n" + ("\n" + rest)
  {
  }

  lemma LinesFrame(e: string, rest: string)
    requires SingleLine(e)
    ensures Lines(Frame(e) + rest) == ["data: " + e, ""] + Lines(rest)
  {
    var line := "data: " + e;
    DataLine(e);
    FrameSplit(e, rest);
    LinesTwo(line, rest);
  }

  /** The browser splits a framed body back into one data line and one blank line per event. */
  lemma {:induction false} LinesFramed(evs: seq<string>)
    requires forall i :: 0 <= i < |evs| ==> SingleLine(evs[i])
    ensures Lines(Framed(evs)) == FrameLines(evs)
    decreases |evs|
  {
    if evs != [] {
      LinesFramed(evs[1..]);
      LinesFrame(evs[0], Framed(evs[1..]));
    }
  }

  /** The payload of a data line holding a word and trailing whitespace is the word. */
  lemma PayloadData(w: string, pad: string)
    requires w != [] && NoSpace(w) && IsBlank(pad)
    ensures Chat.SseData("data: " + w + pad) == Some(w)
  {
    var rest := " " + w + pad;
    assert "data: " + w + pad == Chat.DataPrefix + rest;
    assert rest[0] != Chat.DataPrefix[0];
    assert !StartsWith(rest, Chat.DataPrefix);
    assert StartsWith(Chat.DataPrefix + rest, Chat.DataPrefix);
    TrimStartMatchesOnce(Chat.DataPrefix, rest);
    assert IsBlank(" ");
    TrimPadded(" ", w, pad);
  }

  lemma WordData(w: string)
    requires w != [] && NoSpace(w)
    ensures Chat.SseData("data: " + w + " ") == Some(w)
  {
    assert IsBlank(" ");
    PayloadData(w, " ");
  }

  lemma EndData()
    ensures Chat.SseData("data: " + StreamHandler.EndMarker) == Some(Chat.EndMarker)
  {
    var e := StreamHandler.EndMarker;
    assert NoSpace(e) by {
      forall i | 0 <= i < |e| ensures !IsSpace(e[i]) {
        assert e[i] == '_' || e[i] == 'E' || e[i] == 'N' || e[i] == 'D';
      }
    }
    assert "data: " + e + "" == "data: " + e;
    PayloadData(e, "");
  }

  lemma ScanBlank(reply: string, rest: seq<string>)
    ensures Chat.ScanLines(reply, [""] + rest) == Chat.ScanLines(reply, rest)
  {
    assert Chat.SseData("") == None;
    assert ([""] + rest)[1..] == rest;
  }

  lemma PairTail(a: string, b: string, rest: seq<string>)
    ensures ([a, b] + rest)[0] == a && ([a, b] + rest)[1..] == [b] + rest
  {
  }

  lemma ScanTwo(reply: string, line: string, rest: seq<string>)
    requires Chat.AddsPayload(line)
    ensures Chat.ScanLines(reply, [line, ""] + rest) == Chat.ScanLines(reply + Chat.SseData(line).value + " ", rest)
  {
    var lines := [line, ""] + rest;
    PairTail(line, "", rest);
    Chat.ScanAfterPayload(reply, lines);
    ScanBlank(reply + Chat.SseData(line).value + " ", rest);
  }

  lemma ScanWordFrame(reply: string, w: string, evs: seq<string>)
    requires w != [] && NoSpace(w) && w != Chat.EndMarker
    ensures Chat.ScanLines(reply, FrameLines([w + " "] + evs)) == Chat.ScanLines(reply + w + " ", FrameLines(evs))
  {
    var line := "data: " + (w + " ");
    assert ([w + " "] + evs)[1..] == evs;
    assert FrameLines([w + " "] + evs) == [line, ""] + FrameLines(evs);
    assert line == "data: " + w + " ";
    WordData(w);
    ScanTwo(reply, line, FrameLines(evs));
  }

  lemma ScanEndFrame(reply: string)
    ensures Chat.ScanLines(reply, FrameLines([StreamHandler.EndMarker])) == Chat.Scan(reply, true)
  {
    EndData();
    assert FrameLines([StreamHandler.EndMarker])[0] == "data: " + StreamHandler.EndMarker;
  }

  lemma WordEventsTail(ws: seq<string>)
    requires ws != []
    ensures StreamHandler.WordEvents(ws)[1..] == StreamHandler.WordEvents(ws[1..])
    ensures Concat(StreamHandler.WordEvents(ws)) == (ws[0] + " ") + Concat(StreamHandler.WordEvents(ws[1..]))
  {
  }

  lemma ScanNoWords(reply: string)
    ensures Chat.ScanLines(reply, FrameLines(StreamHandler.WordEvents([]) + [StreamHandler.EndMarker]))
         == Chat.Scan(reply + Concat(StreamHandler.WordEvents([])), true)
  {
    var wevs := StreamHandler.WordEvents([]);
    assert wevs + [StreamHandler.EndMarker] == [StreamHandler.EndMarker];
    ScanEndFrame(reply);
    assert reply + Concat(wevs) == reply;
  }

  lemma ScanFirstWord(reply: string, ws: seq<string>)
    requires ws != [] && ws[0] != [] && NoSpace(ws[0]) && ws[0] != Chat.EndMarker
    ensures Chat.ScanLines(reply, FrameLines(StreamHandler.WordEvents(ws) + [StreamHandler.EndMarker]))
         == Chat.ScanLines(reply + ws[0] + " ", FrameLines(StreamHandler.WordEvents(ws[1..]) + [StreamHandler.EndMarker]))
  {
    var w := ws[0];
    var tail := StreamHandler.WordEvents(ws[1..]);
    WordEventsTail(ws);
    assert StreamHandler.WordEvents(ws) + [StreamHandler.EndMarker] == [w + " "] + (tail + [StreamHandler.EndMarker]);
    ScanWordFrame(reply, w, tail + [StreamHandler.EndMarker]);
  }

  /** The scan of the framed word events and end marker, continuing `reply`. */
  function ScanOfWords(reply: string, ws: seq<string>): Chat.Scan
  {
    Chat.ScanLines(reply, FrameLines(StreamHandler.WordEvents(ws) + [StreamHandler.EndMarker]))
  }

  /** Every word and one space after it appended to `reply`, with streaming over. */
  function WordsShown(reply: string, ws: seq<string>): Chat.Scan
  {
    Chat.Scan(reply + Concat(StreamHandler.WordEvents(ws)), true)
  }

  lemma ScanOfFirstWord(reply: string, ws: seq<string>)
    requires ws != [] && ws[0] != [] && NoSpace(ws[0]) && ws[0] != Chat.EndMarker
    ensures ScanOfWords(reply, ws) == ScanOfWords(reply + ws[0] + " ", ws[1..])
  {
    ScanFirstWord(reply, ws);
  }

  lemma WordsShownFirst(reply: string, ws: seq<string>)
    requires ws != []
    ensures WordsShown(reply, ws) == WordsShown(reply + ws[0] + " ", ws[1..])
  {
    WordEventsTail(ws);
    assert reply + ws[0] + " " + Concat(StreamHandler.WordEvents(ws[1..])) == reply + Concat(StreamHandler.WordEvents(ws));
  }

  /** A word's data line adds the word and one space; the end marker's stops the scan with streaming over. */
  lemma {:induction false} ScanWords(reply: string, ws: seq<string>)
    requires forall i :: 0 <= i < |ws| ==> ws[i] != [] && NoSpace(ws[i]) && ws[i] != Chat.EndMarker
    ensures ScanOfWords(reply, ws) == WordsShown(reply, ws)
    decreases |ws|
  {
    if ws == [] {
      ScanNoWords(reply);
    } else {
      ScanOfFirstWord(reply, ws);
      ScanWords(reply + ws[0] + " ", ws[1..]);
      WordsShownFirst(reply, ws);
    }
  }

  lemma WordEventsSingleLine(ws: seq<string>)
    requires forall i :: 0 <= i < |ws| ==> NoSpace(ws[i])
    ensures forall i :: 0 <= i < |ws| ==> SingleLine(StreamHandler.WordEvents(ws)[i])
  {
    forall i | 0 <= i < |ws| ensures SingleLine(StreamHandler.WordEvents(ws)[i]) {
      var e := StreamHandler.WordEvents(ws)[i];
      assert e == ws[i] + " ";
      forall j | 0 <= j < |e| ensures e[j] != '\n' {
        if j < |ws[i]| {
          assert e[j] == ws[i][j];
          assert !IsSpace(ws[i][j]);
        }
      }
    }
  }

  /** Word events and the end marker, framed and read back in one chunk, show every word followed by a space. */
  lemma WordsArrive(ws: seq<string>)
    requires forall i :: 0 <= i < |ws| ==> ws[i] != [] && NoSpace(ws[i]) && ws[i] != Chat.EndMarker
    ensures Chat.ScanLines([], Lines(Framed(StreamHandler.WordEvents(ws) + [StreamHandler.EndMarker])))
         == Chat.Scan(Concat(StreamHandler.WordEvents(ws)), true)
  {
    var evs := StreamHandler.WordEvents(ws) + [StreamHandler.EndMarker];
    WordEventsSingleLine(ws);
    assert forall i :: 0 <= i < |evs| ==> SingleLine(evs[i]);
    LinesFramed(evs);
    ScanWords([], ws);
    assert [] + Concat(StreamHandler.WordEvents(ws)) == Concat(StreamHandler.WordEvents(ws));
  }

  /**
   * A demo text streamed by the server and received in one chunk: the
   * browser shows the events before the end marker, that is every word of
   * the text followed by one space, and streaming ends, as long as no word
   * of the text is the end marker itself.
   */
  lemma DemoTextArrives(text: string)
    requires Chat.EndMarker !in SplitWhitespace(text)
    ensures var evs := StreamHandler.DemoEvents(text);
      var s := Chat.ScanLines([], Lines(Framed(evs)));
      && s.ended
      && s.reply == Concat(evs[..|evs| - 1])
      && NonSpace(s.reply) == NonSpace(text)
  {
    var ws := SplitWhitespace(text);
    var evs := StreamHandler.DemoEvents(text);
    forall i | 0 <= i < |ws| ensures ws[i] != [] && NoSpace(ws[i]) && ws[i] != Chat.EndMarker {
      assert ws[i] in ws;
    }
    WordsArrive(ws);
    assert evs[..|evs| - 1] == StreamHandler.WordEvents(ws);
    StreamHandler.DemoEventsKeepText(text);
  }

  /** The same for a whole cloud request: what the browser shows is the demo reply up to spacing. */
  lemma DemoReplyArrives(req: StreamHandler.PromptRequest, upstream: StreamHandler.Upstream)
    requires StartsWith(req.model, StreamHandler.CloudPrefix)
    requires Chat.EndMarker !in SplitWhitespace(StreamHandler.DemoText(req.prompt, req.model[|StreamHandler.CloudPrefix|..]))
    ensures var s := Chat.ScanLines([], Lines(Framed(StreamHandler.Handle(req, upstream))));
      && s.ended
      && NonSpace(s.reply) == NonSpace(StreamHandler.DemoText(req.prompt, req.model[|StreamHandler.CloudPrefix|..]))
  {
    DemoTextArrives(StreamHandler.DemoText(req.prompt, req.model[|StreamHandler.CloudPrefix|..]));
  }
}
