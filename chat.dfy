/**
 * The chat side of the front end (src/app.rs): the send guard, the automatic
 * model choice, the shortened model name on the model button, and the
 * handling of the server-sent events that carry a reply.
 */
module Chat {
  import opened Wrappers
  import opened Strings

  datatype ChatMessage = ChatMessage(role: string, text: string)

  /** `do_send` goes ahead only with a non-blank input, a chosen model and no reply streaming. */
  function CanSend(input: string, selected: Option<string>, streaming: bool): (ok: bool)
    ensures ok <==> Trim(input) != [] && selected.Some? && !streaming
  {
    !IsBlank(input) && selected.Some? && !streaming
  }

  /**
   * The model chosen when the installed-model list arrives: the first model
   * when nothing is chosen or the choice is no longer installed; otherwise
   * the choice stands.
   */
  function AutoSelect(models: seq<string>, current: Option<string>): (r: Option<string>)
    ensures models == [] ==> r == current
    ensures models != [] ==> r.Some? && r.value in models
    ensures current.Some? && current.value in models ==> r == current
    ensures r != current ==> models != [] && r == Some(models[0])
  {
    if models != [] && (current.None? || current.value !in models) then Some(models[0]) else current
  }

  /** Choosing again with the same list changes nothing. */
  lemma AutoSelectIdempotent(models: seq<string>, current: Option<string>)
    ensures AutoSelect(models, AutoSelect(models, current)) == AutoSelect(models, current)
  {
  }

  /**
   * The automatic choice also runs whenever the choice itself changes, so a
   * pick that is not an installed model gives way to the first installed
   * one as soon as any is installed.
   */
  lemma UninstalledPickReplaced(models: seq<string>, pick: string)
    requires models != [] && pick !in models
    ensures AutoSelect(models, Some(pick)) == Some(models[0])
  {
  }

  /** Local model names never carry the prefix that marks a cloud model. */
  predicate AllLocal(models: seq<string>)
  {
    forall i :: 0 <= i < |models| ==> !StartsWith(models[i], "cloud:")
  }

  /** A cloud model added in the cloud panel (hidden as shipped) with one local model installed: the pick is lost. */
  lemma CloudPickReplaced()
    ensures AutoSelect(["llama3"], Some("cloud:gpt-4-turbo")) == Some("llama3")
  {
    assert "cloud:gpt-4-turbo" != "llama3";
  }

  /** With any local model installed, no cloud model stays chosen. */
  lemma CloudPickNeverStands(models: seq<string>, pick: string)
    requires models != [] && AllLocal(models) && StartsWith(pick, "cloud:")
    ensures AutoSelect(models, Some(pick)) == Some(models[0])
  {
    forall i | 0 <= i < |models| ensures models[i] != pick {
      assert !StartsWith(models[i], "cloud:");
    }
    UninstalledPickReplaced(models, pick);
  }

  /**
   * The automatic choice as evidently intended: a chosen cloud model is not
   * an installed model by design and stands; any other choice is handled as
   * before.
   */
  function AutoSelectKeepingCloud(models: seq<string>, current: Option<string>): (r: Option<string>)
    ensures current.Some? && StartsWith(current.value, "cloud:") ==> r == current
    ensures current.None? || !StartsWith(current.value, "cloud:") ==> r == AutoSelect(models, current)
    ensures r == current || (r.Some? && r.value in models)
  {
    if current.Some? && StartsWith(current.value, "cloud:") then current else AutoSelect(models, current)
  }

  /** Under the corrected rule a cloud pick survives any installed list, and stays usable for sending. */
  lemma CloudPickStands(models: seq<string>, pick: string, input: string)
    requires StartsWith(pick, "cloud:")
    ensures AutoSelectKeepingCloud(models, Some(pick)) == Some(pick)
    ensures CanSend(input, AutoSelectKeepingCloud(models, Some(pick)), false) <==> !IsBlank(input)
  {
  }

  // ---- The model button's label ----

  /** Bytes in the UTF-8 encoding of a character. */
  function Utf8Len(c: char): (n: nat)
    ensures 1 <= n <= 4
  {
    if c as int < 0x80 then 1 else if c as int < 0x800 then 2 else if c as int < 0x1_0000 then 3 else 4
  }

  /** Bytes in the UTF-8 encoding of a string (Rust's `str::len`). */
  function ByteLen(s: string): nat
  {
    if s == [] then 0 else Utf8Len(s[0]) + ByteLen(s[1..])
  }

  /** A string takes at least one byte and at most four per character. */
  lemma {:induction false} ByteLenBounds(s: string)
    ensures |s| <= ByteLen(s) <= 4 * |s|
    decreases |s|
  {
    if s != [] {
      ByteLenBounds(s[1..]);
    }
  }

  /** The bytes of a non-empty prefix are those of the first character and then those of the rest. */
  lemma ByteLenPrefixes(s: string)
    requires s != []
    ensures forall j :: 0 < j <= |s| ==> ByteLen(s[..j]) == Utf8Len(s[0]) + ByteLen(s[1..][..j - 1])
  {
    forall j | 0 < j <= |s| ensures ByteLen(s[..j]) == Utf8Len(s[0]) + ByteLen(s[1..][..j - 1]) {
      assert s[..j][1..] == s[1..][..j - 1];
    }
  }

  /**
   * The number of characters that fill exactly the first `n` bytes, which
   * exists when byte `n` starts a character (or ends the string); `None`
   * when no prefix of the string is `n` bytes long.
   */
  function CharsInBytes(s: string, n: nat): (k: Option<nat>)
    ensures k.Some? ==> k.value <= |s| && ByteLen(s[..k.value]) == n
    ensures k.None? ==> forall j :: 0 <= j <= |s| ==> ByteLen(s[..j]) != n
  {
    assert s[..0] == [];
    if n == 0 then Some(0)
    else if s == [] then None
    else
      ByteLenPrefixes(s);
      if Utf8Len(s[0]) > n then None
      else
        var rest := CharsInBytes(s[1..], n - Utf8Len(s[0]));
        if rest.Some? then Some(rest.value + 1) else None
  }

  /**
   * The label as written: a name over 15 bytes is cut to its first 12 bytes
   * and "..." appended; `None` where the byte slice panics because byte 12
   * falls inside a character.
   */
  function ShortNameAsWritten(model: string): (r: Option<string>)
    ensures ByteLen(model) <= 15 ==> r == Some(model)
    ensures r.None? <==> ByteLen(model) > 15 && forall j :: 0 <= j <= |model| ==> ByteLen(model[..j]) != 12
    ensures r.Some? && ByteLen(model) > 15 ==>
      ByteLen(r.value) == 15 && exists j :: 0 <= j <= |model| && r.value == model[..j] + "..."
  {
    if ByteLen(model) > 15 then
      var k := CharsInBytes(model, 12);
      if k.Some? then
        ByteLenAppend(model[..k.value], "...");
        AsciiByteLen("...");
        Some(model[..k.value] + "...")
      else None
    else Some(model)
  }

  /** A user-typed cloud model name with a two-byte character across byte 12. */
  const PanickingName: string := "cloud:abcde\U{00E9}fghi"

  lemma {:induction false} ByteLenAppend(a: string, b: string)
    ensures ByteLen(a + b) == ByteLen(a) + ByteLen(b)
    decreases |a|
  {
    if a != [] {
      assert (a + b)[1..] == a[1..] + b;
      ByteLenAppend(a[1..], b);
    } else {
      assert a + b == b;
    }
  }

  /** A count of characters moved past `m` more characters. */
  function Shift(k: Option<nat>, m: nat): (r: Option<nat>)
    ensures r.Some? <==> k.Some?
    ensures r.Some? ==> r.value == k.value + m
  {
    if k.Some? then Some(k.value + m) else None
  }

  /** One ASCII character in front takes one byte and counts once. */
  lemma CharsInBytesAsciiStep(a: string, b: string, n: nat)
    requires a != [] && IsAscii(a) && |a| <= n
    requires CharsInBytes(a[1..] + b, n - 1) == Shift(CharsInBytes(b, n - |a|), |a| - 1)
    ensures CharsInBytes(a + b, n) == Shift(CharsInBytes(b, n - |a|), |a|)
  {
    var s := a + b;
    assert s[0] == a[0] && s[1..] == a[1..] + b;
    assert Utf8Len(s[0]) == 1;
  }

  /** Characters of an ASCII prefix each fill one byte. */
  lemma {:induction false} CharsInBytesAsciiPrefix(a: string, b: string, n: nat)
    requires IsAscii(a) && |a| <= n
    ensures CharsInBytes(a + b, n) == Shift(CharsInBytes(b, n - |a|), |a|)
    decreases |a|
  {
    if a != [] {
      CharsInBytesAsciiPrefix(a[1..], b, n - 1);
      CharsInBytesAsciiStep(a, b, n);
    } else {
      assert a + b == b;
    }
  }

  const PanickingHead: string := "cloud:abcde"
  const PanickingTail: string := "\U{00E9}fghi"

  lemma PanickingParts()
    ensures PanickingName == PanickingHead + PanickingTail
    ensures IsAscii(PanickingHead) && |PanickingHead| == 11
    ensures ByteLen(PanickingTail) == 6 && CharsInBytes(PanickingTail, 1) == None
  {
    var t := PanickingTail;
    assert ByteLen(t) == 2 + ByteLen(t[1..]);
    AsciiByteLen(t[1..]);
  }

  /** The name is 17 bytes long, and byte 12 falls inside its two-byte character. */
  lemma PanickingNameBytes()
    ensures ByteLen(PanickingName) == 17
    ensures CharsInBytes(PanickingName, 12) == None
  {
    PanickingParts();
    AsciiByteLen(PanickingHead);
    ByteLenAppend(PanickingHead, PanickingTail);
    CharsInBytesAsciiPrefix(PanickingHead, PanickingTail, 12);
  }

  /** As written, the label of that selected model cannot be built: the slice panics. */
  lemma ShortNameAsWrittenPanics()
    ensures ShortNameAsWritten(PanickingName) == None
  {
    PanickingNameBytes();
  }

  /**
   * The label as intended, counted in characters: a name over 15 characters
   * becomes its first 12 and "...", so the label never exceeds 15 characters.
   */
  function ShortName(model: string): (r: string)
    ensures |r| <= 15 || r == model
    ensures |model| <= 15 ==> r == model
    ensures |model| > 15 ==> |r| == 15 && r[..12] == model[..12] && r[12..] == "..."
  {
    if |model| > 15 then model[..12] + "..." else model
  }

  predicate IsAscii(s: string)
  {
    forall i :: 0 <= i < |s| ==> s[i] as int < 0x80
  }

  lemma {:induction false} AsciiByteLen(s: string)
    requires IsAscii(s)
    ensures ByteLen(s) == |s|
    decreases |s|
  {
    if s != [] {
      AsciiByteLen(s[1..]);
    }
  }

  lemma {:induction false} AsciiCharsInBytes(s: string, n: nat)
    requires IsAscii(s) && n <= |s|
    ensures CharsInBytes(s, n) == Some(n)
    decreases n
  {
    if n > 0 {
      AsciiCharsInBytes(s[1..], n - 1);
    }
  }

  /** On ASCII names, which is what the installed-model list holds, both labels agree. */
  lemma AsciiNamesAgree(model: string)
    requires IsAscii(model)
    ensures ShortNameAsWritten(model) == Some(ShortName(model))
  {
    AsciiByteLen(model);
    if |model| > 15 {
      AsciiCharsInBytes(model, 12);
    }
  }

  // ---- Server-sent events ----

  const DataPrefix := "data:"
  const EndMarker := "__END__"

  /** The trimmed payload of an SSE `data:` line (every leading "data:" removed); `None` for other lines. */
  function SseData(line: string): (d: Option<string>)
    ensures d.Some? <==> StartsWith(line, DataPrefix)
  {
    if StartsWith(line, DataPrefix) then Some(Trim(TrimStartMatches(line, DataPrefix))) else None
  }

  /** The reply so far, and whether an end marker was seen in this chunk. */
  datatype Scan = Scan(reply: string, ended: bool)

  /**
   * The lines of one chunk folded into the reply: a data line adds its
   * payload and one space; an empty payload stops the chunk; the end marker
   * stops it and ends streaming. Other lines are skipped.
   */
  function ScanLines(reply: string, lines: seq<string>): (s: Scan)
    ensures |reply| <= |s.reply|
    decreases |lines|
  {
    if lines == [] then Scan(reply, false)
    else
      var d := SseData(lines[0]);
      if d.None? then ScanLines(reply, lines[1..])
      else if d.value == EndMarker then Scan(reply, true)
      else if d.value == [] then Scan(reply, false)
      else ScanLines(reply + d.value + " ", lines[1..])
  }

  /** A line whose payload neither ends nor stops the scan: it adds itself and one space. */
  predicate AddsPayload(line: string)
  {
    var d := SseData(line); d.Some? && d.value != EndMarker && d.value != []
  }

  /** A line whose payload, empty or the end marker, stops the scan of the chunk. */
  predicate StopsScan(line: string)
  {
    var d := SseData(line); d.Some? && (d.value == EndMarker || d.value == [])
  }

  lemma ScanAfterPayload(reply: string, lines: seq<string>)
    requires lines != [] && AddsPayload(lines[0])
    ensures ScanLines(reply, lines) == ScanLines(reply + SseData(lines[0]).value + " ", lines[1..])
  {
  }

  lemma ScanAfterOther(reply: string, lines: seq<string>)
    requires lines != [] && SseData(lines[0]).None?
    ensures ScanLines(reply, lines) == ScanLines(reply, lines[1..])
  {
  }

  lemma ScanAtStop(reply: string, lines: seq<string>)
    requires lines != [] && StopsScan(lines[0])
    ensures ScanLines(reply, lines) == Scan(reply, SseData(lines[0]).value == EndMarker)
  {
  }

  /** Scanning only ever adds to the end of the reply. */
  lemma {:induction false} ScanExtends(reply: string, lines: seq<string>)
    ensures reply <= ScanLines(reply, lines).reply
    decreases |lines|
  {
    if lines != [] {
      if AddsPayload(lines[0]) {
        var next := reply + SseData(lines[0]).value + " ";
        ScanAfterPayload(reply, lines);
        ScanExtends(next, lines[1..]);
        assert reply <= next;
      } else if SseData(lines[0]).None? {
        ScanAfterOther(reply, lines);
        ScanExtends(reply, lines[1..]);
      } else {
        ScanAtStop(reply, lines);
      }
    }
  }

  /** Some line adds a payload before any line stops the scan. */
  predicate PayloadBeforeStop(lines: seq<string>)
    decreases |lines|
  {
    lines != [] && !StopsScan(lines[0]) && (AddsPayload(lines[0]) || PayloadBeforeStop(lines[1..]))
  }

  /** The reply of a chunk grows exactly when some payload is added before the scan stops. */
  lemma {:induction false} ScanGrowsIffPayload(reply: string, lines: seq<string>)
    ensures ScanLines(reply, lines).reply != reply <==> PayloadBeforeStop(lines)
    decreases |lines|
  {
    if lines != [] {
      if AddsPayload(lines[0]) {
        var next := reply + SseData(lines[0]).value + " ";
        ScanAfterPayload(reply, lines);
        ScanExtends(next, lines[1..]);
        assert |reply| < |next|;
      } else if SseData(lines[0]).None? {
        ScanAfterOther(reply, lines);
        ScanGrowsIffPayload(reply, lines[1..]);
      } else {
        ScanAtStop(reply, lines);
      }
    }
  }

  /** Lines that are not `data:` lines leave the reply and the streaming flag alone. */
  lemma {:induction false} ScanSkipsOtherLines(reply: string, lines: seq<string>)
    requires forall i :: 0 <= i < |lines| ==> !StartsWith(lines[i], DataPrefix)
    ensures ScanLines(reply, lines) == Scan(reply, false)
    decreases |lines|
  {
    if lines != [] {
      ScanSkipsOtherLines(reply, lines[1..]);
    }
  }

  /** Scanning one chunk then stops exactly as scanning the lines of both would, when the first has no stop. */
  lemma {:induction false} ScanConcat(reply: string, a: seq<string>, b: seq<string>)
    requires forall i :: 0 <= i < |a| ==> var d := SseData(a[i]); d.None? || (d.value != EndMarker && d.value != [])
    ensures ScanLines(reply, a + b) == ScanLines(ScanLines(reply, a).reply, b)
    decreases |a|
  {
    if a != [] {
      assert (a + b)[1..] == a[1..] + b;
      var d := SseData(a[0]);
      ScanConcat(if d.None? then reply else reply + d.value + " ", a[1..], b);
    } else {
      assert a + b == b;
    }
  }

  /** One line of the scan, seen from index `i` of the chunk's lines. */
  lemma ScanStep(acc: string, lines: seq<string>, i: nat)
    requires i < |lines|
    ensures StopsScan(lines[i]) ==> ScanLines(acc, lines[i..]) == Scan(acc, SseData(lines[i]).value == EndMarker)
    ensures AddsPayload(lines[i]) ==>
      ScanLines(acc, lines[i..]) == ScanLines(acc + SseData(lines[i]).value + " ", lines[i + 1..])
    ensures SseData(lines[i]).None? ==> ScanLines(acc, lines[i..]) == ScanLines(acc, lines[i + 1..])
  {
    assert lines[i..][0] == lines[i];
    assert lines[i..][1..] == lines[i + 1..];
  }

  /** `do_send`'s read loop over one chunk: the lines of the chunk, scanned in order. */
  method ScanChunk(reply: string, chunk: string) returns (s: Scan)
    ensures s == ScanLines(reply, Lines(chunk))
  {
    var lines := Lines(chunk);
    var acc := reply;
    var i := 0;
    while i < |lines|
      invariant 0 <= i <= |lines|
      invariant ScanLines(acc, lines[i..]) == ScanLines(reply, lines)
    {
      ScanStep(acc, lines, i);
      if StopsScan(lines[i]) {
        s := Scan(acc, SseData(lines[i]).value == EndMarker);
        return;
      }
      if AddsPayload(lines[i]) {
        acc := acc + SseData(lines[i]).value + " ";
      }
      i := i + 1;
    }
    assert lines[i..] == [];
    s := Scan(acc, false);
  }

  /** The chat with the reply so far shown in its last message, when that message is the AI's. */
  function ShowReply(messages: seq<ChatMessage>, text: string): (r: seq<ChatMessage>)
    ensures |r| == |messages|
    ensures forall i :: 0 <= i < |messages| - 1 ==> r[i] == messages[i]
    ensures messages != [] && messages[|messages| - 1].role == "ai" ==> r[|r| - 1] == ChatMessage("ai", text)
    ensures messages == [] || messages[|messages| - 1].role != "ai" ==> r == messages
  {
    if messages != [] && messages[|messages| - 1].role == "ai"
    then messages[..|messages| - 1] + [ChatMessage("ai", text)]
    else messages
  }

  /** Showing a reply and then a later one shows only the later one. */
  lemma ShowReplyLastWins(messages: seq<ChatMessage>, a: string, b: string)
    ensures ShowReply(ShowReply(messages, a), b) == ShowReply(messages, b)
  {
  }

  /** One read of the response body. */
  datatype Read = Chunk(text: string) | BodyDone | ReadFailed

  /** The reply after the reads of a response body; a finished or failed read ends it. */
  function ReplyAfter(reply: string, results: seq<Read>): (r: string)
    ensures reply <= r
    decreases |results|
  {
    if results == [] || !results[0].Chunk? then reply
    else
      var next := ScanLines(reply, Lines(results[0].text)).reply;
      ScanExtends(reply, Lines(results[0].text));
      ReplyAfter(next, results[1..])
  }

  lemma ReplyAfterChunk(reply: string, results: seq<Read>)
    requires results != [] && results[0].Chunk?
    ensures ReplyAfter(reply, results) == ReplyAfter(ScanLines(reply, Lines(results[0].text)).reply, results[1..])
  {
  }

  lemma ReplyAfterStops(reply: string, results: seq<Read>)
    requires results == [] || !results[0].Chunk?
    ensures ReplyAfter(reply, results) == reply
  {
  }

  /**
   * Showing a reply that grew from `prev` to `next` (the step is skipped when
   * nothing was added) leaves the chat as showing `next` directly would.
   */
  lemma ShowGrowingReply(messages: seq<ChatMessage>, prev: string, next: string)
    requires prev <= next
    ensures var before := if prev == [] then messages else ShowReply(messages, prev);
      (if next == prev then before else ShowReply(before, next))
        == (if next == [] then messages else ShowReply(messages, next))
  {
    if prev != [] {
      ShowReplyLastWins(messages, prev, next);
    }
  }

  class ChatSession {
    var input: string
    var messages: seq<ChatMessage>
    var selected: Option<string>
    var streaming: bool
    /** The model list of the latest status load; empty before one arrives or when it failed. */
    var installed: seq<string>

    constructor ()
      ensures input == [] && messages == [] && selected == None && !streaming && installed == []
    {
      input, messages, selected, streaming, installed := [], [], None, false, [];
    }

    /**
     * `do_send`: when the guard holds, adds the user's message and an empty
     * AI message, clears the input and starts streaming; returns the model and
     * the query to send (web-search context is not part of this model).
     */
    method Send() returns (sent: bool, model: string, query: string)
      modifies this
      ensures sent <==> CanSend(old(input), old(selected), old(streaming))
      ensures sent ==>
        && messages == old(messages) + [ChatMessage("user", old(input)), ChatMessage("ai", "")]
        && input == [] && streaming && selected == old(selected)
        && model == old(selected).value && query == old(input)
        && !CanSend(input, selected, streaming)
      ensures !sent ==> input == old(input) && messages == old(messages) && selected == old(selected) && streaming == old(streaming)
    {
      model, query := "", "";
      if Trim(input) == [] || selected.None? || streaming {
        sent := false;
        return;
      }
      sent := true;
      messages := messages + [ChatMessage("user", input), ChatMessage("ai", "")];
      model, query := selected.value, input;
      input := [];
      streaming := true;
    }

    /**
     * One chunk of the reply stream: the reply grows by the chunk's payloads,
     * the AI message shows it, and an end marker stops streaming.
     */
    method Receive(reply: string, chunk: string) returns (next: string)
      modifies this
      ensures var s := ScanLines(reply, Lines(chunk));
        && next == s.reply
        && messages == (if next == reply then old(messages) else ShowReply(old(messages), next))
        && streaming == (old(streaming) && !s.ended)
        && input == old(input) && selected == old(selected)
    {
      var s := ScanChunk(reply, chunk);
      next := s.reply;
      if next != reply {
        messages := ShowReply(messages, next);
      }
      if s.ended {
        streaming := false;
      }
    }

    /**
     * The whole read loop of `do_send`, starting from an empty reply: chunks
     * until the body is done or a read fails; then streaming stops.
     */
    method Stream(results: seq<Read>) returns (reply: string)
      modifies this
      ensures reply == ReplyAfter([], results)
      ensures messages == (if reply == [] then old(messages) else ShowReply(old(messages), reply))
      ensures !streaming && input == old(input) && selected == old(selected)
    {
      reply := [];
      var i := 0;
      while i < |results| && results[i].Chunk?
        invariant 0 <= i <= |results|
        invariant ReplyAfter(reply, results[i..]) == ReplyAfter([], results)
        invariant messages == (if reply == [] then old(messages) else ShowReply(old(messages), reply))
        invariant input == old(input) && selected == old(selected)
      {
        ghost var prev := reply;
        ReplyAfterChunk(reply, results[i..]);
        assert results[i..][1..] == results[i + 1..];
        ScanExtends(reply, Lines(results[i].text));
        reply := Receive(reply, results[i].text);
        ShowGrowingReply(old(messages), prev, reply);
        i := i + 1;
      }
      ReplyAfterStops(reply, results[i..]);
      streaming := false;
    }

    /**
     * A status load finished: its model list is kept (a failed load keeps
     * none) and the automatic choice is applied.
     */
    method ModelsLoaded(models: seq<string>)
      modifies this
      ensures installed == models
      ensures selected == AutoSelect(models, old(selected))
      ensures input == old(input) && messages == old(messages) && streaming == old(streaming)
    {
      installed := models;
      selected := AutoSelect(models, selected);
    }

    /**
     * A model picked: an installed one from the menu, or a "cloud:" one from
     * the cloud panel, which is hidden as shipped. The
     * automatic choice depends on the choice, so it runs again at once
     * against the latest model list.
     */
    method Select(model: string)
      modifies this
      ensures selected == AutoSelect(installed, Some(model))
      ensures installed == [] || model in installed ==> selected == Some(model)
      ensures installed == old(installed) && input == old(input) && messages == old(messages)
      ensures streaming == old(streaming)
    {
      selected := Some(model);
      selected := AutoSelect(installed, selected);
    }
  }
}
