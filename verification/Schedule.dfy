/** From step entries to a run: shape rules, flattening, the batch loop and the finally phase (workflow.go, run_steps.go). */
module Schedule {
  import opened Outcomes
  import opened Text

  // ---------------------------------------------------------------------------------------
  // Entries
  // ---------------------------------------------------------------------------------------

  datatype Task = Task(id: string, blocking: Option<bool>, body: string)

  datatype Group = Group(mode: string, tasks: seq<Task>)

  /** An entry under steps: or finally:; `group` and `step` are what decoding it as one gives, None for an error. */
  datatype Entry = NotMapping | Null | Mapping(keys: seq<string>, group: Option<Group>, step: Option<Task>)

  datatype Item = GroupItem(tasks: seq<Task>) | StepItem(step: Task) | EmptyItem

  datatype ShapeError =
    | NotAMapping | KeysBesideGroup | BadGroup | NotAsync | NoTasks | SkipContainer | BadStep
    | PlainNotBlocking | BlockingTask(id: string) | EmptyEntry

  /** A null entry never reaches the rules: it is left empty, and refused when it is flattened. */
  function DecodeEntry(n: Entry): Result<Item, ShapeError> {
    if n.NotMapping? then Bad(NotAMapping)
    else if n.Null? then Ok(EmptyItem)
    else if "group" in n.keys then
      if |n.keys| != 1 then Bad(KeysBesideGroup)
      else if n.group.None? then Bad(BadGroup)
      else if n.group.value.mode != "async" then Bad(NotAsync)
      else if n.group.value.tasks == [] then Bad(NoTasks)
      else Ok(GroupItem(n.group.value.tasks))
    else if "skip_container" in n.keys then Bad(SkipContainer)
    else if n.step.None? then Bad(BadStep)
    else if n.step.value.blocking == Some(false) then Bad(PlainNotBlocking)
    else Ok(StepItem(n.step.value))
  }

  /** What decoding lets through. */
  predicate WellShaped(item: Item) {
    match item
    case GroupItem(tasks) => tasks != []
    case StepItem(step) => step.blocking != Some(false)
    case EmptyItem => true
  }

  predicate IsBlocking(t: Task) {
    t.blocking.None? || t.blocking.value
  }

  // ---------------------------------------------------------------------------------------
  // Flattening
  // ---------------------------------------------------------------------------------------

  /** A group's task may not ask to block, and never does. */
  predicate Refused(t: Task) {
    t.blocking == Some(true)
  }

  function Async(tasks: seq<Task>): seq<Task> {
    seq(|tasks|, i requires 0 <= i < |tasks| => tasks[i].(blocking := Some(false)))
  }

  function FlatItem(item: Item): seq<Task> {
    match item
    case GroupItem(tasks) => Async(tasks)
    case StepItem(step) => [step]
    case EmptyItem => []
  }

  function Flat(items: seq<Item>): seq<Task>
    decreases |items|
  {
    if items == [] then [] else Flat(items[..|items| - 1]) + FlatItem(items[|items| - 1])
  }

  function ItemError(item: Item): Option<ShapeError> {
    match item
    case GroupItem(tasks) => TasksError(tasks)
    case StepItem(_) => None
    case EmptyItem => Some(EmptyEntry)
  }

  function TasksError(tasks: seq<Task>): Option<ShapeError> {
    if tasks == [] then None
    else if Refused(tasks[0]) then Some(BlockingTask(TrimSpace(tasks[0].id)))
    else TasksError(tasks[1..])
  }

  /** The first entry that cannot be flattened. */
  function FlatError(items: seq<Item>): Option<ShapeError> {
    if items == [] then None
    else if ItemError(items[0]).Some? then ItemError(items[0])
    else FlatError(items[1..])
  }

  method FlattenSteps(items: seq<Item>) returns (r: Result<seq<Task>, ShapeError>)
    ensures r == if FlatError(items).Some? then Bad(FlatError(items).value) else Ok(Flat(items))
  {
    var out: seq<Task> := [];
    var i := 0;
    while i < |items|
      invariant 0 <= i <= |items| && out == Flat(items[..i]) && FlatError(items) == FlatError(items[i..])
    {
      assert items[..i + 1][..i] == items[..i] && items[i..][0] == items[i] && items[i..][1..] == items[i + 1..];
      match items[i] {
        case GroupItem(tasks) =>
          var t := 0;
          while t < |tasks|
            invariant 0 <= t <= |tasks| && out == Flat(items[..i]) + Async(tasks)[..t]
            invariant TasksError(tasks) == TasksError(tasks[t..])
          {
            assert tasks[t..][0] == tasks[t] && tasks[t..][1..] == tasks[t + 1..];
            if tasks[t].blocking.Some? && tasks[t].blocking.value {
              return Bad(BlockingTask(TrimSpace(tasks[t].id)));
            }
            out := out + [tasks[t].(blocking := Some(false))];
            t := t + 1;
          }
          assert Async(tasks)[..|tasks|] == Async(tasks);
        case StepItem(step) =>
          out := out + [step];
        case EmptyItem =>
          return Bad(EmptyEntry);
      }
      i := i + 1;
    }
    assert items[..|items|] == items;
    r := Ok(out);
  }

  // ---------------------------------------------------------------------------------------
  // Units
  // ---------------------------------------------------------------------------------------

  /** The steps from..to that one turn of the loop attempts. */
  datatype Unit = Unit(from: nat, to: nat)

  function RunEnd(steps: seq<Task>, i: nat): (j: nat)
    requires i <= |steps|
    ensures i <= j <= |steps|
    ensures forall k :: i <= k < j ==> !IsBlocking(steps[k])
    ensures j < |steps| ==> IsBlocking(steps[j])
    decreases |steps| - i
  {
    if i < |steps| && !IsBlocking(steps[i]) then RunEnd(steps, i + 1) else i
  }

  /** The units that the loop makes of the steps from `i` on. */
  function Units(steps: seq<Task>, i: nat): seq<Unit>
    requires i <= |steps|
    decreases |steps| - i
  {
    if i == |steps| then []
    else
      var j := if IsBlocking(steps[i]) then i + 1 else RunEnd(steps, i);
      [Unit(i, j)] + Units(steps, j)
  }

  // ---------------------------------------------------------------------------------------
  // Errors
  // ---------------------------------------------------------------------------------------

  /** `Caused` and `Joined` wrap the errors they are made of. */
  datatype Err = Exit(code: int) | Message(text: string) | Caused(text: string, cause: Err) | Joined(first: Err, second: Err)

  /** exitCodeFromError: the first exit code in the tree. */
  function ExitCode(e: Err): Option<int> {
    match e
    case Exit(code) => Some(code)
    case Message(_) => None
    case Caused(_, cause) => ExitCode(cause)
    case Joined(a, b) => if ExitCode(a).Some? then ExitCode(a) else ExitCode(b)
  }

  function Combine(main: Option<Err>, fin: Option<Err>): Option<Err> {
    if fin.None? then main
    else if main.None? then fin
    else if ExitCode(main.value).Some? then Some(Exit(ExitCode(main.value).value))
    else Some(Joined(main.value, Caused("finally failed", fin.value)))
  }

  // ---------------------------------------------------------------------------------------
  // The run
  // ---------------------------------------------------------------------------------------

  datatype Phase = Main | Finally

  datatype Event = Attempt(phase: Phase, unit: Unit)

  datatype Workflow = Workflow(steps: seq<Task>, fin: seq<Task>)

  /** How set-up and units end, given everything attempted before. */
  datatype Surroundings = Surroundings(setup: (seq<Event>, Phase) -> Option<Err>, attempt: (seq<Event>, Event) -> Option<Err>)

  /** The attempts of one phase from unit `k` on, with the error that ends it. */
  function Attempts(w: Surroundings, phase: Phase, units: seq<Unit>, past: seq<Event>): (seq<Event>, Option<Err>)
    decreases |units|
  {
    if units == [] then (past, None)
    else
      var e := Attempt(phase, units[0]);
      var err := w.attempt(past, e);
      if err.Some? then (past + [e], err) else Attempts(w, phase, units[1..], past + [e])
  }

  function PhaseRun(w: Surroundings, phase: Phase, steps: seq<Task>, past: seq<Event>): (seq<Event>, Option<Err>) {
    var err := w.setup(past, phase);
    if err.Some? then (past, err) else Attempts(w, phase, Units(steps, 0), past)
  }

  /** A run: set-up, the main units, and then, once the main loop has started, the finally units. */
  function Outcome(w: Surroundings, wf: Workflow, phase: Phase, past: seq<Event>): (seq<Event>, Option<Err>) {
    var main := PhaseRun(w, phase, wf.steps, past);
    if w.setup(past, phase).Some? || wf.fin == [] then main
    else
      var fin := PhaseRun(w, Finally, wf.fin, main.0);
      (fin.0, Combine(main.1, fin.1))
  }

  class Engine {
    const around: Surroundings
    var trace: seq<Event>

    constructor (around: Surroundings)
      ensures this.around == around && trace == []
    {
      this.around, trace := around, [];
    }

    method RunUnit(phase: Phase, unit: Unit) returns (err: Option<Err>)
      modifies this
      ensures trace == old(trace) + [Attempt(phase, unit)] && err == around.attempt(old(trace), Attempt(phase, unit))
    {
      err := around.attempt(trace, Attempt(phase, unit));
      trace := trace + [Attempt(phase, unit)];
    }

    /** The loop of runSteps, and then its finally phase. */
    method RunSteps(wf: Workflow, phase: Phase) returns (err: Option<Err>)
      modifies this
      ensures (trace, err) == Outcome(around, wf, phase, old(trace))
      decreases |wf.fin|, 1
    {
      err := around.setup(trace, phase);
      if err.Some? {
        return;
      }
      var n := |wf.steps|;
      var i := 0;
      while i < n && err.None?
        invariant 0 <= i <= n
        invariant
          Attempts(around, phase, Units(wf.steps, 0), old(trace)) ==
          if err.Some? then (trace, err) else Attempts(around, phase, Units(wf.steps, i), trace)
        decreases n - i, err.None?
      {
        if IsBlocking(wf.steps[i]) {
          err := RunUnit(phase, Unit(i, i + 1));
          if err.None? {
            i := i + 1;
          }
          continue;
        }
        var j := i;
        while j < n && !IsBlocking(wf.steps[j])
          invariant i <= j <= n && RunEnd(wf.steps, i) == RunEnd(wf.steps, j)
        {
          j := j + 1;
        }
        err := RunUnit(phase, Unit(i, j));
        if err.None? {
          i := j;
        }
      }
      err := RunFinally(wf, err);
    }

    method RunFinally(wf: Workflow, runErr: Option<Err>) returns (err: Option<Err>)
      modifies this
      ensures
        if wf.fin == [] then trace == old(trace) && err == runErr
        else
          var fin := PhaseRun(around, Finally, wf.fin, old(trace));
          trace == fin.0 && err == Combine(runErr, fin.1)
      decreases |wf.fin|, 0
    {
      if |wf.fin| == 0 {
        return runErr;
      }
      var finallyErr := RunSteps(Workflow(wf.fin, []), Finally);
      if finallyErr.None? {
        return runErr;
      }
      if runErr.None? {
        return finallyErr;
      }
      var code := ExitCode(runErr.value);
      if code.Some? {
        return Some(Exit(code.value));
      }
      err := Some(Joined(runErr.value, Caused("finally failed", finallyErr.value)));
    }
  }
}
