/**
  The in-memory task table of `server.py` (`global_tasks`) behind the
  `/api/binding_domains_progress` and `/api/binding_domains_status`
  endpoints: a task starts running at progress 0, receives the progress
  reports of the binding-domain analysis, and ends completed with its
  result or failed with an error message.

  The analysis thread is run to its end in place; each task id (a random
  UUID) is a parameter.
 */
module Tasks {
  import opened Wrappers
  import opened PyBuiltins
  import opened Hmm
  import opened Records
  import opened Intersections

  /** `'running'`, `'completed'` and `'error'`. */
  datatype Status = Running | Completed | Failed

  datatype Task = Task(progress: int, status: Status, result: Option<Analysis>, sessionId: string,
                       error: Option<string>)

  /** The status endpoint's answer for a known task. */
  datatype StatusReply = StatusReply(status: Status, progress: int, result: Option<Analysis>, error: Option<string>)

  /** A request field: absent, or given (possibly as JSON `null`). */
  datatype Param<T> = Absent | Given(value: Option<T>)

  /** `data.get(key, default)`. */
  function Setting<T>(p: Param<T>, default: Option<T>): (r: Option<T>)
    ensures p.Absent? ==> r == default
    ensures p.Given? ==> r == p.value
  {
    match p
    case Absent => default
    case Given(v) => v
  }

  class TaskRegistry {
    var tasks: map<string, Task>

    constructor ()
      ensures tasks == map[]
    {
      tasks := map[];
    }

    /** Lines 496-501: a new task, running at progress 0 without result. */
    method Start(id: string, sessionId: string)
      modifies this
      ensures tasks == old(tasks)[id := Task(0, Running, None, sessionId, None)]
      ensures Status(id) == Some(StatusReply(Running, 0, None, None))
    {
      tasks := tasks[id := Task(0, Running, None, sessionId, None)];
    }

    /** The progress callback (lines 504-505); a task that is gone raises
        `KeyError` inside the analysis thread and the table is unchanged. */
    method UpdateProgress(id: string, progress: int)
      modifies this
      ensures tasks == if id in old(tasks) then old(tasks)[id := old(tasks)[id].(progress := progress)] else old(tasks)
    {
      if id in tasks {
        tasks := tasks[id := tasks[id].(progress := progress)];
      }
    }

    /** Lines 517-518: the result is stored, then the status. */
    method Complete(id: string, result: Analysis)
      modifies this
      ensures tasks == if id in old(tasks) then old(tasks)[id := old(tasks)[id].(result := Some(result), status := Completed)]
                       else old(tasks)
    {
      if id in tasks {
        tasks := tasks[id := tasks[id].(result := Some(result))];
        tasks := tasks[id := tasks[id].(status := Completed)];
      }
    }

    /** Lines 519-524: an exception in the analysis thread. */
    method Fail(id: string, message: string)
      modifies this
      ensures tasks == if id in old(tasks) then old(tasks)[id := old(tasks)[id].(status := Failed, error := Some(message))]
                       else old(tasks)
    {
      if id in tasks {
        tasks := tasks[id := tasks[id].(status := Failed)];
        tasks := tasks[id := tasks[id].(error := Some(message))];
      }
    }

    /** The delayed clean-up of a completed task (lines 561-566). */
    method Forget(id: string)
      modifies this
      ensures tasks == old(tasks) - {id}
    {
      if id in tasks {
        tasks := tasks - {id};
      }
    }

    /** `binding_domains_status` (lines 541-574): not found for an unknown
        id; the result only for a completed task and the error (or
        "Unknown error") only for a failed one. */
    function Status(id: string): (r: Option<StatusReply>)
      reads this
      ensures r.None? <==> id !in tasks
      ensures r.Some? ==> r.value.status == tasks[id].status && r.value.progress == tasks[id].progress
      ensures r.Some? && r.value.result.Some? ==> r.value.status == Completed && r.value.result == tasks[id].result
      ensures r.Some? ==> (r.value.error.Some? <==> r.value.status == Failed)
      ensures r.Some? && r.value.status == Failed ==> r.value.error == Some(tasks[id].error.GetOr("Unknown error"))
    {
      if id !in tasks then None
      else
        var t := tasks[id];
        Some(StatusReply(t.status, t.progress,
                         if t.status == Completed then t.result else None,
                         if t.status == Failed then Some(t.error.GetOr("Unknown error")) else None))
    }

    /** `binding_domains_progress` (lines 477-536) with its thread run to
        the end: the request defaults (threshold 500, no level, at most
        1000 sequences), a running task, every progress report in turn,
        and the analysis result. The analysis returns its own error
        dictionary rather than raising, so every analysis task completes, at
        progress 100. */
    method RunBindingAnalysis(id: string, sessionId: string, merged: Option<seq<MergedRow>>, pfam: DomainMap,
                              sequences: map<string, string>, threshold: Param<real>, level: Param<string>,
                              maxSequences: Param<int>, workers: nat)
      returns (result: Analysis)
      requires workers >= 1
      modifies this
      ensures tasks == old(tasks)[id := Task(100, Completed, Some(result), sessionId, None)]
      ensures Status(id) == Some(StatusReply(Completed, 100, Some(result), None))
      ensures merged.None? ==> result == Failure("Merged data not created. Call merge_data() first.")
      ensures merged.Some? ==>
                var lvl := Setting(level, None);
                var rows := Kept(merged.value, Setting(threshold, Some(500.0)), lvl);
                Describes(result, rows, Selected(Unique(Genes(rows)), Setting(maxSequences, Some(1000))), pfam,
                          sequences, Setting(threshold, Some(500.0)), lvl)
    {
      Start(id, sessionId);
      var reports;
      result, reports := AnalyzeBindingDomainIntersections(merged, pfam, sequences, Setting(threshold, Some(500.0)),
                                                           Setting(level, None), Setting(maxSequences, Some(1000)),
                                                           workers);
      Relay(id, reports);
      Complete(id, result);
    }

    /** The callback called with each report in turn: a task keeps the
        last one. */
    method Relay(id: string, reports: seq<int>)
      modifies this
      ensures id in old(tasks) && reports != [] ==>
                tasks == old(tasks)[id := old(tasks)[id].(progress := reports[|reports| - 1])]
      ensures id !in old(tasks) || reports == [] ==> tasks == old(tasks)
    {
      var i := 0;
      while i < |reports|
        invariant 0 <= i <= |reports|
        invariant id in old(tasks) && i > 0 ==> tasks == old(tasks)[id := old(tasks)[id].(progress := reports[i - 1])]
        invariant id !in old(tasks) || i == 0 ==> tasks == old(tasks)
      {
        UpdateProgress(id, reports[i]);
        i := i + 1;
      }
    }
  }
}
