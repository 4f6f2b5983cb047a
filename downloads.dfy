/**
 * The browser's list of downloads (src/app.rs, `active_downloads`): entries
 * are appended when a pull starts, updated in place by polling and by the
 * cancel button, and removed by the hide button.
 */
module Downloads {
  import opened Wrappers
  import opened Strings
  import opened Progress

  /** Some entry for `model` is still running. */
  predicate HasActive(items: seq<PullProgress>, model: string)
  {
    exists i :: 0 <= i < |items| && items[i].model == model && !items[i].done
  }

  /** No model has two running entries. */
  predicate AtMostOneActive(items: seq<PullProgress>)
  {
    forall i, j :: 0 <= i < j < |items| && items[i].model == items[j].model ==> items[i].done || items[j].done
  }

  /** `start_download` adds an entry only for a non-blank name with no running entry. */
  predicate ShouldStart(items: seq<PullProgress>, name: string)
  {
    !IsBlank(name) && !HasActive(items, Trim(name))
  }

  /** The list after `start_download(name)`. */
  function Started(items: seq<PullProgress>, name: string): (r: seq<PullProgress>)
    ensures ShouldStart(items, name) ==> |r| == |items| + 1 && r[..|items|] == items && r[|items|] == Starting(Trim(name))
    ensures !ShouldStart(items, name) ==> r == items
  {
    if ShouldStart(items, name) then items + [Starting(Trim(name))] else items
  }

  /** Starting a download never gives a model a second running entry. */
  lemma StartedKeepsOneActive(items: seq<PullProgress>, name: string)
    requires AtMostOneActive(items)
    ensures AtMostOneActive(Started(items, name))
  {
    var r := Started(items, name);
    if ShouldStart(items, name) {
      forall i, j | 0 <= i < j < |r| && r[i].model == r[j].model
        ensures r[i].done || r[j].done
      {
        assert i < |items| && r[i] == items[i];
        if j < |items| {
          assert r[j] == items[j];
        } else {
          assert r[i].model == Trim(name);
        }
      }
    }
  }

  /** After a non-blank name is started, the model has a running entry. */
  lemma StartedIsActive(items: seq<PullProgress>, name: string)
    requires !IsBlank(name)
    ensures HasActive(Started(items, name), Trim(name))
  {
    var r := Started(items, name);
    if ShouldStart(items, name) {
      assert r[|items|].model == Trim(name) && !r[|items|].done;
    }
  }

  /** Index of the first entry satisfying "named `model`" (and running, if `activeOnly`), or |items|. */
  function FirstMatch(items: seq<PullProgress>, model: string, activeOnly: bool): (k: nat)
    ensures k <= |items|
    ensures k < |items| ==> items[k].model == model && (activeOnly ==> !items[k].done)
    ensures forall i :: 0 <= i < k ==> !(items[i].model == model && (activeOnly ==> !items[i].done))
  {
    if items == [] then 0
    else if items[0].model == model && (activeOnly ==> !items[0].done) then 0
    else 1 + FirstMatch(items[1..], model, activeOnly)
  }

  /** An entry after a poll answer: status, percent, done and error from the answer, with a speed and a time. */
  function Polled(d: PullProgress, answer: PullProgress, speed: string, now: int): PullProgress
  {
    d.(status := answer.status, percent := answer.percent, done := answer.done,
       error := answer.error, speed := speed, lastUpdate := now)
  }

  /** An entry after the cancel button: done and "Cancelled", nothing else changed. */
  function CancelledInList(d: PullProgress): PullProgress
  {
    d.(done := true, status := "Cancelled")
  }

  /** The poll update as written: `find` by name, so the FIRST entry named `model`, running or not. */
  function PollFirstNamed(items: seq<PullProgress>, model: string, answer: PullProgress, speed: string, now: int): (r: seq<PullProgress>)
    ensures |r| == |items|
    ensures var k := FirstMatch(items, model, false);
      && (k < |items| ==> r[k] == Polled(items[k], answer, speed, now))
      && forall i :: 0 <= i < |items| && i != k ==> r[i] == items[i]
  {
    var k := FirstMatch(items, model, false);
    if k < |items| then items[k := Polled(items[k], answer, speed, now)] else items
  }

  /** The cancel update as written: the FIRST entry named `model`, running or not. */
  function CancelFirstNamed(items: seq<PullProgress>, model: string): (r: seq<PullProgress>)
    ensures |r| == |items|
    ensures var k := FirstMatch(items, model, false);
      && (k < |items| ==> r[k] == CancelledInList(items[k]))
      && forall i :: 0 <= i < |items| && i != k ==> r[i] == items[i]
  {
    var k := FirstMatch(items, model, false);
    if k < |items| then items[k := CancelledInList(items[k])] else items
  }

  /** A model pulled, finished, and pulled again: the finished entry precedes the running one. */
  function RepeatedPull(): seq<PullProgress>
  {
    [Starting("llama3").(done := true, status := "Complete", percent := 100.0), Starting("llama3")]
  }

  /**
   * As written, polling the second pull of a model updates the finished entry
   * of the first pull: the running entry never changes and, once the answer
   * is not done, the model has two running entries.
   */
  lemma PollFirstNamedMissesRunningEntry()
    ensures var answer := Starting("llama3").(status := "pulling manifest");
      var after := PollFirstNamed(RepeatedPull(), "llama3", answer, "", 1);
      && AtMostOneActive(RepeatedPull())
      && after[1] == RepeatedPull()[1]
      && after[0].status == "pulling manifest"
      && !AtMostOneActive(after)
  {
    var items := RepeatedPull();
    assert FirstMatch(items, "llama3", false) == 0;
  }

  /**
   * As written, the cancel button of the second pull of a model marks the
   * finished first entry and leaves the running one running.
   */
  lemma CancelFirstNamedMissesRunningEntry()
    ensures var after := CancelFirstNamed(RepeatedPull(), "llama3");
      after[1] == RepeatedPull()[1] && !after[1].done && HasActive(after, "llama3")
  {
    var items := RepeatedPull();
    assert FirstMatch(items, "llama3", false) == 0;
    var after := CancelFirstNamed(items, "llama3");
    assert after[1].model == "llama3" && !after[1].done;
  }

  /** The poll update as intended: the running entry named `model`, the one being polled. */
  function PollActive(items: seq<PullProgress>, model: string, answer: PullProgress, speed: string, now: int): (r: seq<PullProgress>)
    ensures |r| == |items|
    ensures forall i :: 0 <= i < |items| && !(items[i].model == model && !items[i].done) ==> r[i] == items[i]
    ensures forall i :: 0 <= i < |items| && items[i].model == model && !items[i].done && AtMostOneActive(items) ==>
      r[i] == Polled(items[i], answer, speed, now)
  {
    var k := FirstMatch(items, model, true);
    if k < |items| then items[k := Polled(items[k], answer, speed, now)] else items
  }

  /** The cancel update as intended: the running entry named `model`. */
  function CancelActive(items: seq<PullProgress>, model: string): (r: seq<PullProgress>)
    ensures |r| == |items|
    ensures forall i :: 0 <= i < |items| && !(items[i].model == model && !items[i].done) ==> r[i] == items[i]
    ensures forall i :: 0 <= i < |items| && items[i].model == model && !items[i].done && AtMostOneActive(items) ==>
      r[i] == CancelledInList(items[i])
  {
    var k := FirstMatch(items, model, true);
    if k < |items| then items[k := CancelledInList(items[k])] else items
  }

  /** Polling keeps at most one running entry per model. */
  lemma PollActiveKeepsOneActive(items: seq<PullProgress>, model: string, answer: PullProgress, speed: string, now: int)
    requires AtMostOneActive(items)
    ensures AtMostOneActive(PollActive(items, model, answer, speed, now))
  {
    var r := PollActive(items, model, answer, speed, now);
    forall i, j | 0 <= i < j < |r| && r[i].model == r[j].model
      ensures r[i].done || r[j].done
    {
      assert r[i].model == items[i].model && r[j].model == items[j].model;
    }
  }

  /** After the cancel button, the model has no running entry left. */
  lemma CancelActiveStopsModel(items: seq<PullProgress>, model: string)
    requires AtMostOneActive(items)
    ensures !HasActive(CancelActive(items, model), model)
    ensures AtMostOneActive(CancelActive(items, model))
  {
    var r := CancelActive(items, model);
    forall i | 0 <= i < |r| && r[i].model == model ensures r[i].done {
      if items[i].model == model && !items[i].done {
        assert r[i] == CancelledInList(items[i]);
      }
    }
  }

  /** The hide button: every entry for `model` removed, the others kept in order. */
  function Retain(items: seq<PullProgress>, model: string): (r: seq<PullProgress>)
    ensures |r| <= |items|
    ensures forall i :: 0 <= i < |r| ==> r[i].model != model && r[i] in items
    ensures forall i :: 0 <= i < |items| && items[i].model != model ==> items[i] in r
  {
    if items == [] then []
    else (if items[0].model != model then [items[0]] else []) + Retain(items[1..], model)
  }

  /** Hiding works entry by entry: the kept entries of a list are those of its parts, in order. */
  lemma {:induction false} RetainAppend(a: seq<PullProgress>, b: seq<PullProgress>, model: string)
    ensures Retain(a + b, model) == Retain(a, model) + Retain(b, model)
    decreases |a|
  {
    if a == [] {
      assert a + b == b;
    } else {
      assert (a + b)[0] == a[0];
      assert (a + b)[1..] == a[1..] + b;
      RetainAppend(a[1..], b, model);
    }
  }

  /** One entry is kept exactly when it is for another model. */
  lemma RetainOne(x: PullProgress, model: string)
    ensures Retain([x], model) == if x.model != model then [x] else []
  {
    assert [x][1..] == [];
  }

  /** Hiding keeps at most one running entry per model. */
  lemma {:induction false} RetainKeepsOneActive(items: seq<PullProgress>, model: string)
    requires AtMostOneActive(items)
    ensures AtMostOneActive(Retain(items, model))
    decreases |items|
  {
    if items != [] {
      var tail := items[1..];
      assert AtMostOneActive(tail) by {
        forall i, j | 0 <= i < j < |tail| && tail[i].model == tail[j].model
          ensures tail[i].done || tail[j].done
        {
          assert items[i + 1] == tail[i] && items[j + 1] == tail[j];
        }
      }
      RetainKeepsOneActive(tail, model);
      var rest := Retain(tail, model);
      if items[0].model != model {
        var r := [items[0]] + rest;
        forall i, j | 0 <= i < j < |r| && r[i].model == r[j].model
          ensures r[i].done || r[j].done
        {
          if i == 0 {
            assert r[j] == rest[j - 1] && rest[j - 1] in tail;
            var k :| 0 <= k < |tail| && tail[k] == rest[j - 1];
            assert items[k + 1] == tail[k];
          }
        }
      }
    }
  }

  /**
   * The browser's list of downloads with the corrected poll and cancel
   * updates (`PollActive`, `CancelActive`), kept with at most one running
   * entry per model. The updates as written (`PollFirstNamed`,
   * `CancelFirstNamed`) do not keep this invariant: see
   * `PollFirstNamedMissesRunningEntry`.
   */
  class DownloadList {
    var items: seq<PullProgress>

    ghost predicate Valid()
      reads this
    {
      AtMostOneActive(items)
    }

    constructor ()
      ensures Valid() && items == []
    {
      items := [];
    }

    /**
     * `start_download`: ignores a blank name and a model that already has a
     * running entry; otherwise appends one "Starting..." entry for the trimmed name.
     */
    method Start(name: string) returns (started: bool)
      requires Valid()
      modifies this
      ensures Valid()
      ensures started <==> !IsBlank(name) && !HasActive(old(items), Trim(name))
      ensures items == Started(old(items), name)
      ensures HasActive(items, Trim(name)) || IsBlank(name)
    {
      if Trim(name) == [] {
        started := false;
        return;
      }
      var model := Trim(name);
      var i := 0;
      while i < |items|
        invariant 0 <= i <= |items|
        invariant forall j :: 0 <= j < i ==> !(items[j].model == model && !items[j].done)
      {
        if items[i].model == model && !items[i].done {
          started := false;
          StartedIsActive(items, name);
          return;
        }
        i := i + 1;
      }
      StartedKeepsOneActive(items, name);
      StartedIsActive(items, name);
      items := items + [Starting(model)];
      started := true;
    }

    /** A poll answer for `model` updates its running entry. */
    method Poll(model: string, answer: PullProgress, speed: string, now: int)
      requires Valid()
      modifies this
      ensures Valid()
      ensures items == PollActive(old(items), model, answer, speed, now)
    {
      PollActiveKeepsOneActive(items, model, answer, speed, now);
      items := PollActive(items, model, answer, speed, now);
    }

    /** The cancel button for `model`'s running entry. */
    method Cancel(model: string)
      requires Valid()
      modifies this
      ensures Valid()
      ensures items == CancelActive(old(items), model)
      ensures !HasActive(items, model)
    {
      CancelActiveStopsModel(items, model);
      items := CancelActive(items, model);
    }

    /** The hide button for `model`: removes its entries from the list. */
    method Hide(model: string)
      requires Valid()
      modifies this
      ensures Valid()
      ensures items == Retain(old(items), model)
    {
      RetainKeepsOneActive(items, model);
      items := Retain(items, model);
    }
  }
}
