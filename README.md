# Ollama chat front end — a Dafny model

This project models the core of a small Leptos web application that chats with
models served by a local Ollama instance. It has two halves.

- **The browser side and its server functions** (`src/app.rs`):
  - A chat view that sends a prompt and shows the reply as it streams in.
  - A picker that selects a model automatically.
  - A download panel that pulls models and polls their progress.
  - A demo cloud login.
  - On the server, a progress store keyed by model name, fed by Ollama's NDJSON pull stream.
- **The `/api/stream` endpoint** (`src/main.rs`):
  - For a model named `cloud:<name>`, it streams a canned demo reply word by word.
  - For any other model, it forwards the prompt to Ollama and turns each NDJSON line into server-sent events.
  - Either way, the stream ends with the `__END__` marker.

## Modules

Each module is one `.dfy` file.

- `Wrappers`: the `Option` type.
- `Strings`: the parts of Rust's `str` the code relies on:
  - `trim`, `trim_start_matches`, `starts_with` and `contains`;
  - `lines` (a line feed ends a line, and one carriage return before it is dropped);
  - `split_whitespace` and `chars().take(n)`.

  Whitespace is the Unicode White_Space set, as in `char::is_whitespace`.
- `Progress`:
  - the pull-progress record and `format_bytes`;
  - the rule that folds one parsed pull line into the stored entry, and the fold over all parsed lines of a chunk.
- `PullStore`: the server's progress store, a class over a map, with start, record, chunk, failure, cancel and check.
- `Downloads`:
  - the poll and cancel updates of the browser's download list as written, and corrected (see Findings);
  - the download list, a class over a sequence, with start, the corrected poll and cancel, and hide;
  - its invariant: at most one running entry per model. The corrected updates keep it; the updates as written do not.
- `Chat`:
  - the send guard and the automatic model choice;
  - the shortened model name on the model button;
  - the SSE line scanner of `do_send`;
  - a chat-session class.
- `Cloud`: the credentials slot, a class, with the two logins, logout, the login check and the key read.
- `StreamHandler`: the `/api/stream` handler as functions from the request and the outcome of the upstream call to the list of event data strings.
- `Wire`: the two halves together. Demo events written as SSE frames and read back by the browser's scanner show the demo text, word by word.

## Model

| member | source | states |
|---|---|---|
| Strings.Trim | src/app.rs:204 | `str::trim`: the result is no longer than the input, it is empty exactly when the input is blank, and neither of its ends is whitespace |
| Strings.TrimIsInfix | src/app.rs:204 | `str::trim` removes only whitespace: the input is a blank prefix, the result, and a blank suffix |
| Strings.TrimStartMatches | src/app.rs:1208 | `trim_start_matches("data:")`: the result is a suffix of the input that no longer starts with the pattern, and it is the input itself when the input does not start with the pattern |
| Strings.TrimStartMatchesPeel | src/app.rs:1208 | a copy of the pattern in front is removed, whatever follows it |
| Strings.TrimStartMatchesRemovesCopies | src/app.rs:1208 | the input is some number of copies of the pattern followed by the result: nothing else is removed |
| Strings.Lines | src/app.rs:1206 | `str::lines`: no line contains a line feed, and the result is empty exactly when the text is |
| Strings.LinesAfterLine | src/app.rs:1206 | text up to the first line feed is the first line, less one carriage return before the feed; the lines of the rest follow |
| Strings.LinesLast | src/app.rs:1206 | a last piece with no line feed after it is one line, kept whole (a carriage return included) |
| Strings.LinesJoin | src/app.rs:1206 | for text without carriage returns, the lines joined with line feeds are the text less one final line feed |
| Strings.SplitWhitespace | src/main.rs:67 | `split_whitespace`: every word is non-empty and free of whitespace |
| Strings.SplitWhitespaceBlank | src/main.rs:67 | blank text has no words |
| Strings.SplitWhitespaceWord | src/main.rs:67 | whitespace, a run of non-whitespace, then text that is empty or starts with whitespace: the run is the first word and the words of the rest follow |
| Strings.SplitWhitespaceKeepsText | src/main.rs:67 | the words, concatenated, are the text with its whitespace removed |
| Strings.StartsWithContains | src/app.rs:396 | a string that starts with a pattern contains it |
| Strings.Take | src/main.rs:61 | `chars().take(n)`: the first `min(n, len)` characters |
| Progress.Starting | src/app.rs:227-240 | a new pull's entry: not done, no error, 0 percent |
| Progress.ErrorOf | src/app.rs:290 | a line has an error message exactly when its `error` member is a string, and the message is that string |
| Progress.UnitForIsLargestFitting | src/app.rs:339-352 | `format_bytes` picks the largest unit not above the count, so the count is below 1024 units unless it is already gigabytes |
| Progress.DecimalRoundTrip | src/app.rs:351 | printing a byte count in decimal and reading it back gives the count |
| Progress.Tenths | src/app.rs:345-349 | the count in tenths of a unit, rounded as `{:.1}` rounds: to the nearest tenth, an exact tie to the even digit |
| Progress.NearestTenthsUnique | src/app.rs:345-349 | that rounding rule admits exactly one count of tenths |
| Progress.FormatBytes | src/app.rs:339-353 | the text is never empty; what it reads back as is stated by FormatBytesReadsBack |
| Progress.FormatBytesReadsBack | src/app.rs:339-352 | the text ends in the unit's label; below 1 KB its number is the byte count; otherwise its number, read as tenths, is the count in that unit rounded to one decimal |
| Progress.SpeedText | src/app.rs:281-282 | the "completed / total" text is never empty |
| Progress.Percent | src/app.rs:274-275 | the percent of completed bytes is never negative and at most 100 while completed does not exceed total |
| Progress.Applied | src/app.rs:265-304 | the entry after one line: done iff status "success" or any `error` member; the error message is the line's `error` string when that is a string, and none otherwise; a clean finish shows "Complete" and 100; otherwise the line's status, the new percent, or the previous percent when `total` is 0; the byte text when both counts are set, the previous speed otherwise |
| Progress.AppliedIdempotent | src/app.rs:265-304 | applying the same line twice stores the same entry as applying it once |
| Progress.CancelOverwrittenByNextLine | src/app.rs:289-296 | a cancelled entry is replaced by a running one when the next non-final progress line arrives |
| Progress.ApplyLines | src/app.rs:256-306 | the fold of a chunk's parsed lines: when it changes the entry, the new entry is the model's and carries the chunk's clock reading |
| Progress.ApplyLinesKeepsEntry | src/app.rs:260-306 | folding a chunk's lines never removes an existing entry |
| Progress.LastParsedDecides | src/app.rs:260-306 | after a chunk, the last line that parsed decides done, error and status; a chunk where no line parsed leaves the entry unchanged |
| PullStore.EmptyNameError | src/app.rs:204-215 | a blank model name is answered with a done "Error" entry carrying "Model name cannot be empty" |
| PullStore.RequestFailed | src/app.rs:310-323 | a failed pull request leaves a done "Error" entry with the request's error message |
| PullStore.CancelledEntry | src/app.rs:365-369 | cancelling sets done, "Cancelled" and the cancel message, and keeps percent, speed, bytes and time |
| PullStore.InstalledIffContains | src/app.rs:395-397 | the installed-model test "starts with or contains" is the same as "contains" |
| PullStore.Untracked | src/app.rs:393-421 | with no stored entry, the answer is done, "Complete" and 100 exactly when an installed name matches; otherwise it is "Waiting..." and 0 |
| PullStore.Store.constructor | src/app.rs:194-198 | the store starts empty |
| PullStore.Store.StartPull | src/app.rs:201-241 | a blank name is refused and the store is unchanged; otherwise the trimmed name gets a fresh "Starting..." entry, replacing any old one, and that entry is returned |
| PullStore.Store.ApplyRecord | src/app.rs:262-304 | one parsed line replaces the model's entry with the applied one; no other entry changes |
| PullStore.Store.ApplyChunk | src/app.rs:256-306 | a chunk's lines are applied in order (lines that are not JSON are skipped); only the model's entry changes, and it becomes the fold of the lines |
| PullStore.Store.FailPull | src/app.rs:310-323 | a failed request stores the error entry for the model |
| PullStore.Store.Cancel | src/app.rs:356-378 | an existing entry for the trimmed name is marked cancelled; no entry is created; the answer is true |
| PullStore.Store.Check | src/app.rs:381-422 | the stored entry for the trimmed name is returned unchanged; with none stored, done iff some installed name contains the model |
| Downloads.Started | src/app.rs:803-826 | a non-blank name with no running entry appends one "Starting..." entry for the trimmed name; otherwise the list is unchanged |
| Downloads.StartedKeepsOneActive | src/app.rs:808-812 | starting a download never gives a model a second running entry |
| Downloads.StartedIsActive | src/app.rs:803-826 | after a non-blank name is started, the model has a running entry |
| Downloads.FirstMatch | src/app.rs:858 | `iter_mut().find`: the first index that matches, or the length when none does |
| Downloads.PollFirstNamed | src/app.rs:857-888 | the poll update as written: the first entry named for the model takes the answer, whether or not it is running; no other entry changes |
| Downloads.CancelFirstNamed | src/app.rs:2045-2050 | the cancel button as written: the first entry named for the model becomes done and "Cancelled", whether or not it is running; no other entry changes |
| Downloads.PollFirstNamedMissesRunningEntry | src/app.rs:857-888 | the poll update as written: on a list with a finished and then a running entry for the same model, it changes the finished one and produces two running entries |
| Downloads.CancelFirstNamedMissesRunningEntry | src/app.rs:2045-2050 | the cancel button as written: on the same list, it marks the finished entry and the download stays running |
| Downloads.PollActive | src/app.rs:882-887 | corrected poll update: only the model's running entry takes the answer's status, percent, done and error, and the new speed and time; every other entry is unchanged |
| Downloads.CancelActive | src/app.rs:2045-2050 | corrected cancel: only the model's running entry becomes done and "Cancelled" |
| Downloads.PollActiveKeepsOneActive | src/app.rs:857-888 | polling keeps at most one running entry per model |
| Downloads.CancelActiveStopsModel | src/app.rs:2045-2050 | after cancel, the model has no running entry |
| Downloads.Retain | src/app.rs:2062-2064 | hiding removes every entry for the model and keeps all the others |
| Downloads.RetainAppend | src/app.rs:2062-2064 | hiding works entry by entry: the kept entries of two lists joined are those of each, in their order |
| Downloads.RetainOne | src/app.rs:2062-2064 | one entry is kept exactly when it is for another model |
| Downloads.RetainKeepsOneActive | src/app.rs:2062-2064 | hiding keeps at most one running entry per model |
| Downloads.DownloadList.constructor | src/app.rs:682 | the list with the corrected updates starts empty |
| Downloads.DownloadList.Start | src/app.rs:803-826 | `start_download`: reports whether it started (non-blank name, no running entry for the trimmed name); the list becomes `Started`; the model then has a running entry |
| Downloads.DownloadList.Poll | src/app.rs:857-888 | corrected poll (PollActive, see Findings): the answer updates the model's running entry, keeping the invariant |
| Downloads.DownloadList.Cancel | src/app.rs:2045-2050 | corrected cancel (CancelActive, see Findings): the model is left with no running entry |
| Downloads.DownloadList.Hide | src/app.rs:2062-2064 | the hide button: the list becomes Retain of the old list, keeping the invariant |
| Chat.AutoSelect | src/app.rs:937-951 | with models installed, the choice becomes the first model when nothing is chosen or the choice is not installed; an installed choice stands; an empty list changes nothing |
| Chat.AutoSelectIdempotent | src/app.rs:937-951 | choosing again with the same list changes nothing |
| Chat.UninstalledPickReplaced | src/app.rs:939-947 | with models installed, a choice that is not one of them becomes the first installed model |
| Chat.CloudPickReplaced | src/app.rs:1557 | a `cloud:gpt-4-turbo` pick with `llama3` installed becomes `llama3` |
| Chat.CloudPickNeverStands | src/app.rs:939-947 | with any local model installed, a `cloud:` choice always becomes the first installed model |
| Chat.AutoSelectKeepingCloud | src/app.rs:937-951 | the corrected automatic choice: a `cloud:` choice stands; any other choice is handled as before; the result is the choice or an installed model |
| Chat.CloudPickStands | src/app.rs:1557 | under the corrected choice a `cloud:` pick survives any model list, and sending with it needs only non-blank input |
| Chat.CanSend | src/app.rs:1102 | `do_send` goes ahead exactly when the trimmed input is not empty, a model is chosen and no reply is streaming |
| Chat.Utf8Len | src/app.rs:1296 | a character takes 1 to 4 bytes in UTF-8; `Chat.ByteLen`, the model of `str::len`, is the sum of Utf8Len over the characters |
| Chat.ByteLenBounds | src/app.rs:1296 | `str::len` lies between the character count and four times it |
| Chat.ByteLenAppend | src/app.rs:1296 | the byte count of two strings joined is the sum of their byte counts |
| Chat.AsciiByteLen | src/app.rs:1296 | an ASCII string has as many bytes as characters |
| Chat.CharsInBytes | src/app.rs:1297 | when byte n starts a character, the count of characters whose bytes fill exactly the first n bytes; none exactly when no prefix of the string is n bytes long |
| Chat.ShortNameAsWritten | src/app.rs:1296-1300 | the label as written: a name of up to 15 bytes is shown whole; it panics exactly when the name is longer and no prefix is 12 bytes; otherwise the label is a 12-byte prefix and "...", 15 bytes in all |
| Chat.PanickingNameBytes | src/app.rs:1296-1297 | "cloud:abcdeéfghi" is 17 bytes long, and byte 12 falls inside "é" |
| Chat.ShortNameAsWrittenPanics | src/app.rs:1296-1300 | the byte-based label as written has no value for that name: the slice panics |
| Chat.ShortName | src/app.rs:1296-1300 | corrected label: names of up to 15 characters are shown whole; longer ones become their first 12 characters and "...", 15 characters in all |
| Chat.AsciiNamesAgree | src/app.rs:1296-1300 | on ASCII names the label as written and the corrected label agree |
| Chat.SseData | src/app.rs:1207-1208 | a line has a payload exactly when it starts with "data:" |
| Chat.ScanLines | src/app.rs:1206-1227 | the scan of one chunk's lines never shortens the reply |
| Chat.ScanExtends | src/app.rs:1206-1227 | scanning a chunk only appends to the reply |
| Chat.ScanSkipsOtherLines | src/app.rs:1207 | lines that are not `data:` lines change neither the reply nor streaming |
| Chat.ScanConcat | src/app.rs:1206-1227 | scanning two runs of lines equals scanning them in turn, when the first run has no stopping payload |
| Chat.ScanGrowsIffPayload | src/app.rs:1206-1217 | the reply of a chunk grows exactly when some line adds a payload before a line stops the scan |
| Chat.ScanChunk | src/app.rs:1206-1227 | the loop over a chunk's lines yields the line-by-line scan: payloads are appended with a space, an empty payload stops the chunk, and the end marker stops it and ends streaming |
| Chat.ShowReply | src/app.rs:1219-1225 | only the last message changes, and only when it is the AI's, to the reply so far; an empty list, or one whose last message is not the AI's, is left unchanged |
| Chat.ShowReplyLastWins | src/app.rs:1219-1225 | showing a reply and then a later one is the same as showing the later one |
| Chat.ReplyAfter | src/app.rs:1188-1231 | the reply after all reads of the body only ever extends the starting reply |
| Chat.ChatSession.constructor | src/app.rs:672-675 | a session starts with no input, no messages, no model, nothing streaming and no model list loaded |
| Chat.ChatSession.Send | src/app.rs:1100-1127 | sends exactly when the input is not blank, a model is chosen and nothing is streaming; then adds the user message and an empty AI message, clears the input and starts streaming; otherwise nothing changes |
| Chat.ChatSession.Receive | src/app.rs:1193-1227 | one chunk grows the reply by the scan, shows it in the AI message, and an end marker stops streaming |
| Chat.ChatSession.Stream | src/app.rs:1188-1234 | the whole read loop: the reply is the scan of every chunk until the body ends or a read fails, the AI message shows it, and streaming stops |
| Chat.ChatSession.ModelsLoaded | src/app.rs:937-951 | a status load keeps its model list as the latest one, applies the automatic choice and changes nothing else |
| Chat.ChatSession.Select | src/app.rs:1257-1258 | picking a model sets the choice, and the automatic choice, which reads the choice at src/app.rs:940 and so runs again, applies to it against the latest model list: the pick stands when it is installed or no list is loaded, and gives way to the first installed model otherwise; nothing else changes |
| Cloud.Credentials.constructor | src/app.rs:499-503 | the slot starts empty |
| Cloud.Credentials.OAuthLogin | src/app.rs:506-534 | an unknown provider is refused with "Invalid login provider" and the slot is kept; otherwise the provider's demo user and the demo key are stored, and "Connected (demo mode)" is returned |
| Cloud.Credentials.EmailLogin | src/app.rs:537-558 | a blank email or password is refused with "Email and password are required" and the slot is kept; otherwise the trimmed email is stored and returned |
| Cloud.Credentials.Logout | src/app.rs:561-566 | the slot is emptied and the answer is true |
| Cloud.Credentials.CheckLogin | src/app.rs:569-573 | the stored user, or none when logged out |
| Cloud.Credentials.ApiKey | src/app.rs:577-585 | the stored key, or none when logged out |
| Cloud.EmailLoginThenLogout | src/app.rs:537-573 | on a fresh slot, the check after an email login sees the trimmed email exactly when it was accepted; the check after logout sees nobody |
| Cloud.RefusedLoginKeepsUser | src/app.rs:506-534 | a refused OAuth login leaves the logged-in user in place |
| StreamHandler.RouteOf | src/main.rs:47-48 | a model takes the demo path exactly when it starts with "cloud:"; the name without the prefix, with the prefix put back, is the model |
| StreamHandler.DemoText | src/main.rs:52-63 | the demo reply opens by quoting the prompt's first 100 characters at most (the whole prompt when it is that short) |
| StreamHandler.WordEvents | src/main.rs:67-70 | one event per word: the word followed by a space |
| StreamHandler.DemoEvents | src/main.rs:65-72 | the demo stream is one event per word of the reply, then exactly one `__END__` |
| StreamHandler.WordEventsKeepText | src/main.rs:67-70 | the word events carry exactly the words' characters, apart from spacing |
| StreamHandler.DemoEventsKeepText | src/main.rs:65-72 | the events before the end marker carry the reply's non-whitespace characters in order |
| StreamHandler.LineEvents | src/main.rs:98-104 | for a line the stream gets past: a line that is not JSON yields nothing; a JSON line yields its string `response` if any, then `__END__` if `done` is true |
| StreamHandler.Translate | src/main.rs:96-107 | the stream ends at the first read error or at the first `response` holding a carriage return (building its event panics); each line before that yields at most its response and one `__END__`, and no event sent holds a carriage return |
| StreamHandler.TranslateConcat | src/main.rs:97-106 | lines the stream gets past are translated one after another |
| StreamHandler.TranslateStopsAtError | src/main.rs:97-100 | nothing from a read error, or from a response with a carriage return, onwards reaches the browser |
| StreamHandler.CarriageReturnEndsStream | src/main.rs:100 | a response `"a\rb"` followed by a `done` line sends no event at all: neither the response nor `__END__` |
| StreamHandler.WellFormedAnswerEvents | src/main.rs:96-107 | a generation whose lines each carry a response without a carriage return, with `done` only on the last, streams every response in order and then one `__END__` |
| StreamHandler.FrontEvents | src/main.rs:98-101 | lines with a sendable response and no `done` stream just their responses |
| StreamHandler.Handle | src/main.rs:38-117 | a cloud model gets the demo events; a local model gets `[Error: Ollama not reachable]` when the request fails, and the translated lines otherwise |
| StreamHandler.DemoEventsNoCarriageReturn | src/main.rs:65-72 | the demo words are whitespace-free, so no demo event holds a carriage return |
| StreamHandler.HandleSendsNoCarriageReturn | src/main.rs:38-117 | on every route, no event the handler sends holds a carriage return |
| StreamHandler.CloudIgnoresUpstream | src/main.rs:47-73 | a cloud model's events do not depend on the local server's answer: the demo path makes no upstream call |
| Wire.LinesFramed | src/app.rs:1206 | the browser splits SSE frames back into one data line and one blank line per event |
| Wire.Framed | src/main.rs:66-73 | the SSE body is empty exactly when there are no events, and each event takes at least the 8 bytes of its framing |
| Wire.PayloadData | src/app.rs:1208 | a data line holding a word and trailing whitespace yields exactly the word |
| Wire.WordData | src/app.rs:1208 | the payload of a word event's data line is the word |
| Wire.EndData | src/app.rs:1208-1209 | the payload of the end event's data line is the end marker |
| Wire.ScanWords | src/app.rs:1206-1216 | scanning framed word events followed by the end marker appends each word and a space, and ends streaming |
| Wire.WordsArrive | src/main.rs:65-72 | word events and the end marker, framed and read in one chunk, are shown as the words, each followed by a space |
| Wire.DemoTextArrives | src/main.rs:65-72 | a demo text read in one chunk is shown as its words, each followed by a space, and streaming ends, provided no word is `__END__` |
| Wire.DemoReplyArrives | src/main.rs:47-73 | for a cloud request, provided no word of the demo reply is `__END__`, the browser shows the reply up to spacing and streaming ends (a prompt whose quoted part holds the word `__END__` stops the reply early) |

## Left out

- Process control is not modelled:
  - the automatic `ollama serve` (`src/app.rs:217-222`);
  - the `pkill` in `cancel_model_pull` (`src/app.rs:372-375`). It targets an `ollama pull` process, while the pull itself runs over HTTP in a spawned task that keeps writing; `Progress.CancelOverwrittenByNextLine` states that the next progress line replaces the "Cancelled" entry;
  - `get_ollama_status` and `toggle_ollama_service`.
- The installed-model list is a parameter of `Check`.
- HTTP, JSON and timing are given as inputs:
  - a pull chunk is a list of already-parsed lines, where `None` means not JSON;
  - Ollama's generate answer is a list of parsed lines or read errors;
  - the outcome of the request to Ollama is an `Upstream` value;
  - the browser's body reads are a list of `Read` values;
  - lossy UTF-8 decoding is not modelled.
- The pull stream runs in a spawned task, and the browser polls on an interval. Task interleaving and the mutexes around the store and the credentials slot are not modelled; each store is one object.
- Progress.Applied: the percent is an exact real. The source's f32 division and its rounding are not modelled.
- Progress.FormatBytes: the count is divided exactly. The source first converts the u64 count to f64, which rounds counts above 2^53.
- PullStore.Store.ApplyChunk: the clock is read once per chunk (`now`). The source reads it once per line.
- Downloads.DownloadList.Poll: the browser's speed estimate (`src/app.rs:859-880`, f32 arithmetic on the percent change over an assumed 4 GB) is passed in as `speed`, together with the time `now`. The refresh of the model list after a finished pull is left out.
- Chat.ChatSession.Receive: the AI message is updated once per chunk rather than once per payload. It ends with the same text.
- Chat.ChatSession.Send: the web-search context is not modelled (`brave_search`, the token and the prompt it builds). The request carries the raw query.
- The cloud model listing is modelled only up to reading the key (`src/app.rs:576-585`). The HTTP call and its fallback list are not.
- Not modelled: the browser handlers that copy the login answers into signals (`src/app.rs:1008-1075`), model deletion, the hostname lookup, Markdown rendering, themes, menus, `localStorage` persistence, the view markup, the router set-up in `main` and the hydration entry point in `src/lib.rs`.
- StreamHandler: the axum SSE library is not part of this model. Its rules are taken as given: a field value may not hold a carriage return (building such an event panics and ends the stream), and a value holding line feeds becomes several data lines.
- Chat.ChatSession.Select: the session follows the automatic choice as written. The corrected choice `Chat.AutoSelectKeepingCloud` is stated and proved on its own.
- Wire: the SSE frame is taken to be `data: ` plus the event text plus a blank line. Only single-line events (the demo words) are covered. A local model's response that contains line feeds is framed as several data lines, and that case is not covered. Neither is a reply split over several chunks. Each chunk is still scanned faithfully by `Chat.ChatSession.Receive`.

## Findings

| source | as written | input that shows it | evidently intended | confidence | as-written member | corrected member |
|---|---|---|---|---|---|---|
| src/app.rs:857-858 | the poll answer for a model is written into the first list entry with that name, running or not | the same model pulled a second time while its finished first download is still listed: `[llama3 Complete, llama3 Starting...]` | update the running entry being polled | not executed | Downloads.PollFirstNamedMissesRunningEntry | Downloads.PollActive |
| src/app.rs:2045-2046 | the cancel button marks the first list entry with that name, running or not | the same list, cancelling the second download | mark the running entry as cancelled | not executed | Downloads.CancelFirstNamedMissesRunningEntry | Downloads.CancelActive |
| src/app.rs:937-951 | the automatic choice reads the current choice, so it runs again after every pick and replaces any choice that is not an installed model; a cloud model added in the cloud panel is at once replaced | only with the hidden cloud panel re-enabled (it is `display:none` at src/app.rs:1461-1463, and the cloud model input at src/app.rs:1543-1557 sits inside it): installed `["llama3"]`, then `cloud:gpt-4-turbo` added at src/app.rs:1557 | a picked cloud model stays chosen | not executed | Chat.CloudPickReplaced | Chat.AutoSelectKeepingCloud |
| src/app.rs:1296-1297 | the label is cut at byte 12 when the name is longer than 15 bytes; the slice panics when byte 12 is inside a multi-byte character | only with the hidden cloud panel re-enabled (src/app.rs:1461-1463): selected model `cloud:abcdeéfghi` (17 bytes, "é" spans bytes 11-12) added at src/app.rs:1557, with no local model installed (otherwise the automatic choice replaces it first) | cut by characters | not executed | Chat.ShortNameAsWrittenPanics | Chat.ShortName |
