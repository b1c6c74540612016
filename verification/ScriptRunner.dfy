/**
 * The bounded repair loop of a task script (src/invoke/script-runner.service.ts).
 * `runAndFix` and `_handleResult` call each other; the number of repairs is kept
 * under the key `retry` of the event's `context.invocations`, which is stored
 * and reloaded whenever the script is suspended.
 */
module ScriptRunner {
  import opened Common

  /** What one execution, or one restored execution, comes to. */
  datatype Result = Waits | Data(data: Json) | ScriptError(message: string) | Crashes

  /** A value under a key of `context.invocations`. */
  datatype Slot = Retry(n: nat) | Invocation

  type Invocations = map<string, Slot>

  /** An execution's result, and the invocations it leaves. */
  datatype Answer = Answer(result: Result, invocations: Invocations)

  /** The outside: the n-th execution's answer, and whether the n-th answer's error can be fixed. */
  datatype World = World(answer: nat -> Answer, fixes: nat -> bool)

  datatype Ending = Suspended | Finished | Failed

  /** The task's context, with counts of what happened since the event was emitted. */
  datatype Task = Task(invocations: Invocations, resp: Option<Json>, answers: nat, runs: nat, fixes: nat)

  const RETRY := "retry"

  function Retries(inv: Invocations): nat {
    if RETRY in inv && inv[RETRY].Retry? then inv[RETRY].n else 0
  }

  /** Endpoint calls add and delete entries under invoke ids, and no invoke id is `retry`. */
  function Touched(inv: Invocations, after: Invocations): Invocations {
    if RETRY in inv then after[RETRY := inv[RETRY]] else after - {RETRY}
  }

  function Answered(w: World, t: Task): Task {
    t.(invocations := Touched(t.invocations, w.answer(t.answers).invocations), answers := t.answers + 1)
  }

  function Budget(inv: Invocations): nat {
    if Retries(inv) > 3 then 0 else 4 - Retries(inv)
  }

  /** `runAndFix`. */
  function Run(w: World, t: Task): (Ending, Task)
    decreases Budget(t.invocations), 1
  {
    Handle(w, w.answer(t.answers).result, Answered(w, t.(runs := t.runs + 1)))
  }

  /** `runAndFixCallback`: the suspended execution goes on. */
  function Callback(w: World, t: Task): (Ending, Task) {
    Handle(w, w.answer(t.answers).result, Answered(w, t))
  }

  /** `_handleResult`. */
  function Handle(w: World, result: Result, t: Task): (Ending, Task)
    decreases Budget(t.invocations), 0
  {
    match result
    case Waits => (Suspended, t)
    case Crashes => (Failed, t)
    case Data(d) => (Finished, t.(resp := Some(d)))
    case ScriptError(_) =>
      if Retries(t.invocations) > 3 || !w.fixes(t.answers) then (Failed, t)
      else Run(w, t.(invocations := map[RETRY := Retry(1 + Retries(t.invocations))], fixes := t.fixes + 1))
  }

  class Runner {
    var task: Task

    constructor ()
      ensures task == Task(map[], None, 0, 0, 0)
    {
      task := Task(map[], None, 0, 0, 0);
    }

    method Invoke(w: World) returns (result: Result)
      modifies this
      ensures result == w.answer(old(task.answers)).result && task == Answered(w, old(task))
    {
      var a := w.answer(task.answers);
      task := task.(invocations := Touched(task.invocations, a.invocations), answers := task.answers + 1);
      return a.result;
    }

    method RunAndFix(w: World) returns (ending: Ending)
      modifies this
      ensures (ending, task) == Run(w, old(task))
      decreases Budget(task.invocations), 1
    {
      task := task.(runs := task.runs + 1);
      var result := Invoke(w);
      ending := HandleResult(w, result);
    }

    method RunAndFixCallback(w: World) returns (ending: Ending)
      modifies this
      ensures (ending, task) == Callback(w, old(task))
    {
      var result := Invoke(w);
      ending := HandleResult(w, result);
    }

    method HandleResult(w: World, result: Result) returns (ending: Ending)
      modifies this
      ensures (ending, task) == Handle(w, result, old(task))
      ensures result.Waits? ==> ending == Suspended && task == old(task)
      ensures result.Crashes? ==> ending == Failed && task == old(task)
      ensures result.Data? ==> ending == Finished && task == old(task).(resp := Some(result.data))
      ensures result.ScriptError? && (Retries(old(task.invocations)) > 3 || !w.fixes(old(task.answers))) ==>
                ending == Failed && task == old(task)
      ensures result.ScriptError? && Retries(old(task.invocations)) <= 3 && w.fixes(old(task.answers)) ==>
                var n := Retries(old(task.invocations));
                (ending, task) == Run(w, old(task).(invocations := map[RETRY := Retry(1 + n)], fixes := old(task.fixes) + 1))
      decreases Budget(task.invocations), 0
    {
      if result.Waits? {
        return Suspended;
      }
      if result.Crashes? {
        return Failed;
      }
      if result.Data? {
        task := task.(resp := Some(result.data));
        return Finished;
      }
      var retry := Retries(task.invocations);
      if retry > 3 {
        return Failed;
      }
      if !w.fixes(task.answers) {
        return Failed;
      }
      task := task.(invocations := map[RETRY := Retry(1 + retry)], fixes := task.fixes + 1);
      ending := RunAndFix(w);
    }
  }

  // ---------------------------------------------------------------- properties

  /** The event's first run, then a callback for each time it is suspended. */
  function Session(w: World, callbacks: nat): (Ending, Task) {
    if callbacks == 0 then Run(w, Task(map[], None, 0, 0, 0))
    else
      var (ending, t) := Session(w, callbacks - 1);
      if ending.Suspended? then Callback(w, t) else (ending, t)
  }

  /** The stored counter is the number of repairs, each followed by one run. */
  ghost predicate Counted(t: Task) {
    Retries(t.invocations) == t.fixes && t.runs == t.fixes + 1 && t.fixes <= 4
  }

  lemma {:induction false} HandleCounts(w: World, result: Result, t: Task)
    requires Counted(t)
    ensures Counted(Handle(w, result, t).1) && Handle(w, result, t).1.fixes >= t.fixes
    decreases Budget(t.invocations)
  {
    if result.ScriptError? && Retries(t.invocations) <= 3 && w.fixes(t.answers) {
      var t1 := t.(invocations := map[RETRY := Retry(1 + Retries(t.invocations))], fixes := t.fixes + 1);
      HandleCounts(w, w.answer(t1.answers).result, Answered(w, t1.(runs := t1.runs + 1)));
    }
  }

  /**
   * Per event, over any number of suspensions and callbacks: at most four repairs
   * and at most five executions, one more than repairs; the stored counter is the
   * number of repairs, whatever endpoint calls do to the rest of the invocations.
   */
  lemma {:induction false} RepairIsBounded(w: World, callbacks: nat)
    ensures var t := Session(w, callbacks).1;
            t.runs <= 5 && t.fixes <= 4 && t.runs == t.fixes + 1 && Retries(t.invocations) == t.fixes
  {
    if callbacks == 0 {
      var t := Task(map[], None, 0, 0, 0);
      HandleCounts(w, w.answer(0).result, Answered(w, t.(runs := 1)));
    } else {
      RepairIsBounded(w, callbacks - 1);
      var (ending, t) := Session(w, callbacks - 1);
      if ending.Suspended? {
        HandleCounts(w, w.answer(t.answers).result, Answered(w, t));
      }
    }
  }

  /** The last answer decides how it ends, and a response is recorded exactly when that answer carries data. */
  ghost predicate EndedBy(w: World, ending: Ending, t: Task) {
    && t.answers > 0
    && var last := w.answer(t.answers - 1).result;
       && (ending == Suspended <==> last.Waits?)
       && (ending == Finished <==> last.Data?)
       && (ending == Failed <==> last.Crashes? || last.ScriptError?)
       && (last.ScriptError? ==> t.fixes == 4 || !w.fixes(t.answers))
       && t.resp == if last.Data? then Some(last.data) else None
  }

  lemma {:induction false} HandleEnds(w: World, t: Task)
    requires Counted(t) && t.answers > 0 && t.resp.None?
    ensures var (ending, t') := Handle(w, w.answer(t.answers - 1).result, t); EndedBy(w, ending, t')
    decreases Budget(t.invocations)
  {
    if w.answer(t.answers - 1).result.ScriptError? && Retries(t.invocations) <= 3 && w.fixes(t.answers) {
      var t1 := t.(invocations := map[RETRY := Retry(1 + Retries(t.invocations))], fixes := t.fixes + 1);
      HandleEnds(w, Answered(w, t1.(runs := t1.runs + 1)));
    }
  }

  /**
   * How an event ends, over any number of suspensions and callbacks: finished
   * exactly when the last answer is data, which is then its response; suspended
   * exactly when it waits; failed exactly when it crashed, or is a script error
   * that cannot be fixed or comes after four repairs.  Without data there is no
   * response.
   */
  lemma {:induction false} SessionEnds(w: World, callbacks: nat)
    ensures var (ending, t) := Session(w, callbacks); EndedBy(w, ending, t) && Counted(t)
  {
    if callbacks == 0 {
      var t := Answered(w, Task(map[], None, 0, 1, 0));
      HandleCounts(w, w.answer(0).result, t);
      HandleEnds(w, t);
    } else {
      SessionEnds(w, callbacks - 1);
      var (ending, t) := Session(w, callbacks - 1);
      if ending.Suspended? {
        HandleCounts(w, w.answer(t.answers).result, Answered(w, t));
        HandleEnds(w, Answered(w, t));
      }
    }
  }

  /** A script that always fails and can always be fixed. */
  function Hopeless(): World {
    World(n => Answer(ScriptError("error"), map[]), n => true)
  }

  lemma {:induction false} HopelessRuns(t: Task)
    requires Retries(t.invocations) <= 4
    requires t.invocations.Keys == {RETRY} || t.invocations == map[]
    ensures var (ending, t') := Run(Hopeless(), t);
            ending.Failed? && t'.fixes == t.fixes + 4 - Retries(t.invocations)
            && t'.runs == t.runs + 5 - Retries(t.invocations)
    decreases 4 - Retries(t.invocations)
  {
    var w := Hopeless();
    var t1 := Answered(w, t.(runs := t.runs + 1));
    assert Retries(t1.invocations) == Retries(t.invocations);
    if Retries(t.invocations) <= 3 {
      HopelessRuns(t1.(invocations := map[RETRY := Retry(1 + Retries(t1.invocations))], fixes := t1.fixes + 1));
    }
  }

  /** The bounds are reached: five executions and four repairs, although the final error speaks of three. */
  lemma RepairBoundIsTight()
    ensures var (ending, t) := Session(Hopeless(), 0);
            ending.Failed? && t.runs == 5 && t.fixes == 4
  {
    HopelessRuns(Task(map[], None, 0, 0, 0));
  }

  /** An execution that fails is repaired and repeated exactly while the counter is at most three. */
  lemma RepairedIff(w: World, message: string, t: Task)
    requires Counted(t) && w.fixes(t.answers)
    ensures Handle(w, ScriptError(message), t).1.runs > t.runs <==> t.fixes <= 3
  {
    if t.fixes <= 3 {
      var t1 := t.(invocations := map[RETRY := Retry(1 + Retries(t.invocations))], fixes := t.fixes + 1, runs := t.runs + 1);
      HandleCounts(w, w.answer(t1.answers).result, Answered(w, t1));
    }
  }
}
