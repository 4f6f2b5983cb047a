/**
 * The server's pull-progress store (src/app.rs, `PULL_PROGRESS`): one entry
 * per trimmed model name, written when a pull starts, on every progress line,
 * on a failed request and on cancellation, and read by the polling endpoint.
 * The process-wide mutex around it is left out: the store is one object here.
 */
module PullStore {
  import opened Wrappers
  import opened Strings
  import opened Progress

  /** The reply to a pull request whose model name is blank; nothing is stored. */
  function EmptyNameError(modelName: string): (p: PullProgress)
    ensures p.done && p.error == Some("Model name cannot be empty") && p.status == "Error"
    ensures p.model == modelName
  {
    PullProgress(modelName, "Error", 0.0, true, Some("Model name cannot be empty"), 0, "", 0)
  }

  /** The entry written when the request to the pull endpoint itself fails. */
  function RequestFailed(model: string, message: string): (p: PullProgress)
    ensures p.model == model && p.done && p.error == Some(message) && p.status == "Error"
  {
    PullProgress(model, "Error", 0.0, true, Some(message), 0, "", 0)
  }

  const CancelMessage := "Download cancelled by user"

  /** An entry after cancellation: done, "Cancelled", with the cancel message; the rest kept. */
  function CancelledEntry(p: PullProgress): (c: PullProgress)
    ensures c.done && c.status == "Cancelled" && c.error == Some(CancelMessage)
    ensures c.model == p.model && c.percent == p.percent && c.speed == p.speed
    ensures c.bytesDownloaded == p.bytesDownloaded && c.lastUpdate == p.lastUpdate
  {
    p.(done := true, status := "Cancelled", error := Some(CancelMessage))
  }

  /** An installed model matches when its name starts with or contains the requested one. */
  predicate Installed(model: string, installed: seq<string>)
  {
    exists i :: 0 <= i < |installed| && (StartsWith(installed[i], model) || Contains(installed[i], model))
  }

  /** The prefix test adds nothing: a name matches exactly when it contains the model. */
  lemma InstalledIffContains(model: string, installed: seq<string>)
    ensures Installed(model, installed) <==>
      exists i :: 0 <= i < |installed| && Contains(installed[i], model)
  {
    if Installed(model, installed) {
      var i :| 0 <= i < |installed| && (StartsWith(installed[i], model) || Contains(installed[i], model));
      if StartsWith(installed[i], model) {
        StartsWithContains(installed[i], model);
      }
    }
  }

  /**
   * What polling reports for a model the store has no entry for: complete if
   * an installed model matches, waiting otherwise.
   */
  function Untracked(model: string, installed: seq<string>): (p: PullProgress)
    ensures p.model == model && p.error == None
    ensures p.done <==> Installed(model, installed)
    ensures p.done ==> p.status == "Complete" && p.percent == 100.0
    ensures !p.done ==> p.status == "Waiting..." && p.percent == 0.0
  {
    if Installed(model, installed)
    then PullProgress(model, "Complete", 100.0, true, None, 0, "", 0)
    else PullProgress(model, "Waiting...", 0.0, false, None, 0, "", 0)
  }

  function Lookup(entries: map<string, PullProgress>, model: string): Option<PullProgress>
  {
    if model in entries then Some(entries[model]) else None
  }

  /** Writing `model`'s entry again replaces whatever an earlier write of it left. */
  lemma Overwrite(start: map<string, PullProgress>, entries: map<string, PullProgress>,
                  cur: Option<PullProgress>, model: string, p: PullProgress)
    requires entries == if cur.Some? then start[model := cur.value] else start
    ensures entries[model := p] == start[model := p]
    ensures Lookup(entries[model := p], model) == Some(p)
  {
  }

  class Store {
    var entries: map<string, PullProgress>

    constructor ()
      ensures entries == map[]
    {
      entries := map[];
    }

    /**
     * `start_model_pull`, up to spawning the download: a blank name is refused
     * without touching the store; otherwise the trimmed name gets a fresh
     * "Starting..." entry, replacing any earlier one.
     */
    method StartPull(modelName: string) returns (r: PullProgress)
      modifies this
      ensures IsBlank(modelName) ==> r == EmptyNameError(modelName) && entries == old(entries)
      ensures !IsBlank(modelName) ==>
        && r == Starting(Trim(modelName))
        && entries == old(entries)[Trim(modelName) := Starting(Trim(modelName))]
    {
      if Trim(modelName) == [] {
        r := EmptyNameError(modelName);
        return;
      }
      var model := Trim(modelName);
      entries := entries[model := Starting(model)];
      r := Starting(model);
    }

    /** One parsed progress line for `model`; every other entry is untouched. */
    method ApplyRecord(model: string, rec: PullRecord, now: int)
      modifies this
      ensures entries == old(entries)[model := Applied(Lookup(old(entries), model), model, rec, now)]
    {
      var prev := Lookup(entries, model);
      entries := entries[model := Applied(prev, model, rec, now)];
    }

    /**
     * One chunk of the pull response: its lines in order, `None` for a line
     * that is not JSON. Only `model`'s entry changes, to the fold of the lines.
     */
    method ApplyChunk(model: string, lines: seq<Option<PullRecord>>, now: int)
      modifies this
      ensures var p := ApplyLines(Lookup(old(entries), model), model, lines, now);
        entries == if p.Some? then old(entries)[model := p.value] else old(entries)
    {
      ghost var start := entries;
      ghost var cur := Lookup(start, model);
      var i := 0;
      while i < |lines|
        invariant 0 <= i <= |lines|
        invariant cur == ApplyLines(Lookup(start, model), model, lines[..i], now)
        invariant Lookup(entries, model) == cur
        invariant entries == if cur.Some? then start[model := cur.value] else start
      {
        ApplyLinesStep(Lookup(start, model), model, lines, i, now);
        if lines[i].Some? {
          var prev := Lookup(entries, model);
          var next := Applied(prev, model, lines[i].value, now);
          Overwrite(start, entries, cur, model, next);
          entries := entries[model := next];
          cur := Some(next);
        }
        i := i + 1;
      }
      assert lines[..i] == lines;
    }

    /** The request to the pull endpoint failed: the entry records the error. */
    method FailPull(model: string, message: string)
      modifies this
      ensures entries == old(entries)[model := RequestFailed(model, message)]
    {
      entries := entries[model := RequestFailed(model, message)];
    }

    /**
     * `cancel_model_pull`: marks an existing entry cancelled and creates
     * none; always answers true.
     */
    method Cancel(modelName: string) returns (ok: bool)
      modifies this
      ensures ok
      ensures Trim(modelName) in old(entries) ==>
        entries == old(entries)[Trim(modelName) := CancelledEntry(old(entries)[Trim(modelName)])]
      ensures Trim(modelName) !in old(entries) ==> entries == old(entries)
    {
      var model := Trim(modelName);
      if model in entries {
        entries := entries[model := CancelledEntry(entries[model])];
      }
      ok := true;
    }

    /**
     * `check_pull_progress`: the stored entry for the trimmed name as it is,
     * else the answer from the list of installed models.
     */
    method Check(modelName: string, installed: seq<string>) returns (r: PullProgress)
      ensures Trim(modelName) in entries ==> r == entries[Trim(modelName)]
      ensures Trim(modelName) !in entries ==>
        && r.model == Trim(modelName) && r.error == None
        && (r.done <==> exists i :: 0 <= i < |installed| && Contains(installed[i], Trim(modelName)))
        && (r.done ==> r.status == "Complete" && r.percent == 100.0)
        && (!r.done ==> r.status == "Waiting..." && r.percent == 0.0)
    {
      var model := Trim(modelName);
      if model in entries {
        r := entries[model];
      } else {
        InstalledIffContains(model, installed);
        r := Untracked(model, installed);
      }
    }
  }
}
