/**
  An executable task instance: its execution context (the Task rows it
  created, the per-sub-unit work items and the stage timings), the lazy
  creation of that context, the timed iteration over the work items, the
  stage timer, the stage decorators and the status update.
 */
module Executable {
  import opened Wrappers
  import opened Values
  import opened Parameters
  import opened Tasks

  datatype Stage = PreExecute | Execute | PostExecute

  // ---------------------------------------------------------------------------
  // Stage timings.

  /**
    The `"timing"` entry of the context: `time_<stage>`, `time_<stage>_bundle`,
    `time_<stage>_per_task` and `time_total`.
   */
  datatype Timing = Timing(
    stageTime: map<Stage, real>,
    bundleTime: map<Stage, real>,
    perTask: map<Stage, seq<real>>,
    total: Option<real>)

  const NoTiming := Timing(map[], map[], map[], None)

  function Sum(s: seq<real>): real {
    if s == [] then 0.0 else Sum(s[..|s| - 1]) + s[|s| - 1]
  }

  /** `timing.get(f"time_{stage}", 0)` */
  function StageTime(t: Timing, stage: Stage): real {
    if stage in t.stageTime then t.stageTime[stage] else 0.0
  }

  /** `sum(timing.get(f"time_{stage}_per_task", [0]))` */
  function PerTaskSum(t: Timing, stage: Stage): real {
    if stage in t.perTask then Sum(t.perTask[stage]) else 0.0
  }

  /**
    `TaskStageTimer.update_timing(elapsed)`: the stage took `elapsed`, of which
    everything not spent on the work items is bundle overhead, and the total is
    the sum of the three stage times recorded so far.
   */
  function TimingAfter(t: Timing, stage: Stage, elapsed: real): Timing
  {
    var t1 := t.(bundleTime := t.bundleTime[stage := elapsed - PerTaskSum(t, stage)],
                 stageTime := t.stageTime[stage := elapsed]);
    t1.(total := Some(StageTime(t1, PreExecute) + StageTime(t1, Execute) + StageTime(t1, PostExecute)))
  }

  /** What `update_timing` records: the stage time, the stage's overhead and the total of the three stage times. */
  lemma TimingAfterSpec(t: Timing, stage: Stage, elapsed: real)
    ensures var r := TimingAfter(t, stage, elapsed);
      && r.stageTime.Keys == t.stageTime.Keys + {stage} && r.stageTime[stage] == elapsed
      && r.bundleTime.Keys == t.bundleTime.Keys + {stage}
      && r.bundleTime[stage] + PerTaskSum(t, stage) == elapsed
      && r.perTask == t.perTask
      && (forall s :: s != stage && s in t.stageTime ==> r.stageTime[s] == t.stageTime[s])
      && (forall s :: s != stage && s in t.bundleTime ==> r.bundleTime[s] == t.bundleTime[s])
      && r.total == Some(StageTime(r, PreExecute) + StageTime(r, Execute) + StageTime(r, PostExecute))
  {
  }

  /** The time recorded for a stage does not depend on the stages recorded before it. */
  lemma TimingTotalAfterAll(t: Timing, pre: real, exec: real, post: real)
    ensures TimingAfter(TimingAfter(TimingAfter(t, PreExecute, pre), Execute, exec), PostExecute, post).total
      == Some(pre + exec + post)
  {
  }

  /** A stage time just set is the one read back. */
  lemma StageTimeSet(t: Timing, m: map<Stage, real>, stage: Stage, elapsed: real)
    ensures t.stageTime == m[stage := elapsed] ==> StageTime(t, stage) == elapsed
  {
  }

  /**
    A total taken after `execute` and `post_execute` recorded their times
    over the stage times of `t` is `pre_execute`'s time in `t` plus theirs.
   */
  lemma TotalAfterExecAndPost(t: Timing, t': Timing, exec: real, post: real)
    ensures
      && t'.stageTime == t.stageTime[Execute := exec][PostExecute := post]
      && t'.total == Some(StageTime(t', PreExecute) + StageTime(t', Execute) + StageTime(t', PostExecute))
      ==> t'.total == Some(StageTime(t, PreExecute) + exec + post)
  {
  }

  /** The per-item time `t` of item `i` is added to its slot, or appended when the list is too short. */
  function AccumulateStep(per: seq<real>, i: nat, t: real): seq<real> {
    if i < |per| then per[i := per[i] + t] else per + [t]
  }

  /** The per-item list after the items `0 .. |times| - 1` have been timed in turn. */
  function Accumulate(per: seq<real>, times: seq<real>): (r: seq<real>)
    ensures |r| == if |per| < |times| then |times| else |per|
    ensures forall i :: 0 <= i < |r| ==> r[i] == At(per, i) + At(times, i)
  {
    if times == [] then per
    else AccumulateStep(Accumulate(per, times[..|times| - 1]), |times| - 1, times[|times| - 1])
  }

  /** `s[i]`, or 0 past the end. */
  function At(s: seq<real>, i: nat): real {
    if i < |s| then s[i] else 0.0
  }

  lemma {:induction false} SumUpdate(s: seq<real>, i: nat, t: real)
    requires i < |s|
    ensures Sum(s[i := s[i] + t]) == Sum(s) + t
  {
    var u := s[i := s[i] + t];
    if i < |s| - 1 {
      assert u[..|u| - 1] == s[..|s| - 1][i := s[i] + t];
      SumUpdate(s[..|s| - 1], i, t);
    } else {
      assert u[..|u| - 1] == s[..|s| - 1];
    }
  }

  lemma SumAppend(s: seq<real>, t: real)
    ensures Sum(s + [t]) == Sum(s) + t
  {
    assert (s + [t])[..|s|] == s;
  }

  /** Accumulating per-item times adds exactly their sum to the stage's per-item total. */
  lemma {:induction false} SumAccumulate(per: seq<real>, times: seq<real>)
    ensures Sum(Accumulate(per, times)) == Sum(per) + Sum(times)
  {
    if times != [] {
      var init := times[..|times| - 1];
      var t := times[|times| - 1];
      SumAccumulate(per, init);
      var a := Accumulate(per, init);
      if |times| - 1 < |a| {
        SumUpdate(a, |times| - 1, t);
      } else {
        SumAppend(a, t);
      }
    }
  }

  /**
    When a stage's items were timed in a fresh per-item list, the overhead the
    timer records plus the per-item times is the whole stage time.
   */
  lemma OverheadPlusItems(t: Timing, stage: Stage, times: seq<real>, elapsed: real)
    ensures var t1 := t.(perTask := t.perTask[stage := Accumulate([], times)]);
      TimingAfter(t1, stage, elapsed).bundleTime[stage] + Sum(times) == elapsed
  {
    SumAccumulate([], times);
  }

  // ---------------------------------------------------------------------------
  // Work items.

  /** The parameters of one sub-unit, in plan order. */
  type Unit = seq<(string, Value)>

  /**
    `{name: value[i] if indexed else value for ...}` for sub-unit `i`; the
    first entry whose slicing raises decides the error.
   */
  function SliceUnit(plan: seq<(string, Resolved)>, i: nat): (r: Result<Unit, PyError>)
    ensures r.Ok? ==> |r.value| == |plan|
  {
    if plan == [] then Ok([])
    else
      var p := plan[0].1;
      var head := if p.indexed then Index(p.value, i) else Ok(p.value);
      match head
      case Err(e) => Err(e)
      case Ok(v) =>
        match SliceUnit(plan[1..], i)
        case Err(e) => Err(e)
        case Ok(rest) => Ok([(plan[0].0, v)] + rest)
  }

  /**
    Sub-unit i keeps every parameter name in order, takes the i-th element of
    each sliced value and every other value whole, and fails exactly when
    slicing one of the sliced values raises.
   */
  lemma {:induction false} SliceUnitSpec(plan: seq<(string, Resolved)>, i: nat)
    ensures var r := SliceUnit(plan, i);
      r.Ok? ==> forall k :: 0 <= k < |plan| ==>
        && r.value[k].0 == plan[k].0
        && (plan[k].1.indexed ==> Index(plan[k].1.value, i) == Ok(r.value[k].1))
        && (!plan[k].1.indexed ==> r.value[k].1 == plan[k].1.value)
    ensures SliceUnit(plan, i).Err? <==> exists k :: 0 <= k < |plan| && plan[k].1.indexed && Index(plan[k].1.value, i).Err?
  {
    if plan != [] {
      SliceUnitSpec(plan[1..], i);
      assert forall k :: 1 <= k < |plan| ==> plan[k] == plan[1..][k - 1];
      var p := plan[0].1;
      if p.indexed && Index(p.value, i).Err? {
        assert SliceUnit(plan, i).Err?;
      } else if SliceUnit(plan[1..], i).Err? {
        var k :| 0 <= k < |plan| - 1 && plan[1..][k].1.indexed && Index(plan[1..][k].1.value, i).Err?;
        assert plan[k + 1] == plan[1..][k];
      }
    }
  }

  /**
    The parameters of sub-units `0 .. n - 1`, or the index of the first
    sub-unit whose slicing raises, with its error.
   */
  function Units(plan: seq<(string, Resolved)>, n: nat): (r: Result<seq<Unit>, (nat, PyError)>)
    ensures r.Ok? ==> |r.value| == n
    ensures r.Err? ==> r.error.0 < n && SliceUnit(plan, r.error.0) == Err(r.error.1)
  {
    if n == 0 then Ok([])
    else
      match Units(plan, n - 1)
      case Err(x) => Err(x)
      case Ok(us) =>
        match SliceUnit(plan, n - 1)
        case Err(e) => Err((n - 1, e))
        case Ok(u) => Ok(us + [u])
  }

  /** Sub-unit i of the plan is the i-th element of `Units`. */
  lemma {:induction false} UnitsSlices(plan: seq<(string, Resolved)>, n: nat)
    requires Units(plan, n).Ok?
    ensures forall i :: 0 <= i < n ==> SliceUnit(plan, i) == Ok(Units(plan, n).value[i])
  {
    if n > 0 {
      UnitsSlices(plan, n - 1);
    }
  }

  /** Sub-units `0 .. n - 1` all slice without error. */
  predicate AllSlice(plan: seq<(string, Resolved)>, n: nat) {
    forall i :: 0 <= i < n ==> SliceUnit(plan, i).Ok?
  }

  /** Every sub-unit is sliced unless one raises; the first one that raises stops the rest. */
  lemma {:induction false} UnitsFailure(plan: seq<(string, Resolved)>, n: nat)
    ensures Units(plan, n).Ok? <==> AllSlice(plan, n)
    ensures Units(plan, n).Err? ==>
      && Units(plan, Units(plan, n).error.0).Ok?
      && AllSlice(plan, Units(plan, n).error.0)
  {
    if n > 0 {
      UnitsFailure(plan, n - 1);
      var before := Units(plan, n - 1);
      if before.Err? {
        assert Units(plan, n) == before;
        assert !SliceUnit(plan, before.error.0).Ok?;
      } else if SliceUnit(plan, n - 1).Err? {
        assert Units(plan, n) == Err((n - 1, SliceUnit(plan, n - 1).error));
        assert !SliceUnit(plan, n - 1).Ok?;
      } else {
        UnitsSlices(plan, n);
      }
    }
  }

  /** One more sub-unit: appended when it slices, the failure with its index when it raises. */
  lemma UnitsStep(plan: seq<(string, Resolved)>, i: nat, units: seq<Unit>)
    requires Units(plan, i) == Ok(units)
    ensures SliceUnit(plan, i).Ok? ==> Units(plan, i + 1) == Ok(units + [SliceUnit(plan, i).value])
    ensures SliceUnit(plan, i).Err? ==> Units(plan, i + 1) == Err((i, SliceUnit(plan, i).error))
  {
  }

  /** Once a sub-unit fails, looking further does not change the outcome. */
  lemma {:induction false} UnitsStuck(plan: seq<(string, Resolved)>, k: nat, m: nat)
    requires k <= m && Units(plan, k).Err?
    ensures Units(plan, m) == Units(plan, k)
  {
    if k < m {
      UnitsStuck(plan, k, m - 1);
    }
  }

  /**
    For a plan from the resolver, each sub-unit below the bundle size slices
    without error unless a sliced parameter holds a dictionary, and then a
    sliced parameter contributes its i-th element (a one-character string for
    a string).
   */
  lemma SlicesUnlessDict(schema: Schema, kwargs: map<string, Value>, i: nat)
    requires DistinctNames(schema)
    requires ParseParameters(schema, kwargs).Ok?
    requires i < ParseParameters(schema, kwargs).value.bundleSize
    requires forall k :: 0 <= k < |schema| ==>
      var p := ParseParameters(schema, kwargs).value.parameters[k].1;
      p.indexed ==> !p.value.VDict?
    ensures var plan := ParseParameters(schema, kwargs).value.parameters;
      && SliceUnit(plan, i).Ok?
      && forall k :: 0 <= k < |plan| && plan[k].1.indexed ==>
        (plan[k].1.value.VList? ==> SliceUnit(plan, i).value[k].1 == plan[k].1.value.items[i])
        && (plan[k].1.value.VStr? ==> SliceUnit(plan, i).value[k].1 == VStr([plan[k].1.value.s[i]]))
  {
    var res := ParseParameters(schema, kwargs).value;
    var plan := res.parameters;
    BoundValues(schema, kwargs);
    IndexedRule(schema, kwargs);
    SliceUnitSpec(plan, i);
    forall k | 0 <= k < |plan| && plan[k].1.indexed
      ensures Index(plan[k].1.value, i).Ok?
    {
      var p := plan[k].1;
      assert p.length == res.bundleSize > 1;
      assert p.length == LengthOf(p.value);
    }
  }

  /** A work item of the context: `(task, data_products, parameters)`; the data products are always `None`. */
  datatype Item = Item(task: nat, parameters: Unit)

  /** The work items for the given sub-units, with task ids numbered from `first`. */
  function MakeItems(first: nat, units: seq<Unit>): (items: seq<Item>)
    ensures |items| == |units|
    ensures forall i :: 0 <= i < |units| ==> items[i] == Item(first + i, units[i])
  {
    if units == [] then [] else MakeItems(first, units[..|units| - 1]) + [Item(first + |units| - 1, units[|units| - 1])]
  }

  /** The Task table after one row per sub-unit, with ids numbered from `first`. */
  function AddTasks(tasks: map<nat, TaskRow>, first: nat, name: string, version: string, units: seq<Unit>): map<nat, TaskRow> {
    if units == [] then tasks
    else AddTasks(tasks, first, name, version, units[..|units| - 1])[first + |units| - 1 := TaskRow(name, units[|units| - 1], version, CreatedStatus)]
  }

  /** One more sub-unit adds its row at the next id and its item at the end. */
  lemma TasksStep(tasks: map<nat, TaskRow>, first: nat, name: string, version: string, units: seq<Unit>, u: Unit)
    ensures AddTasks(tasks, first, name, version, units + [u])
      == AddTasks(tasks, first, name, version, units)[first + |units| := TaskRow(name, u, version, CreatedStatus)]
    ensures MakeItems(first, units + [u]) == MakeItems(first, units) + [Item(first + |units|, u)]
    ensures Range(first, |units| + 1) == Range(first, |units|) + [first + |units|]
  {
    assert (units + [u])[..|units|] == units;
  }

  /** The new rows are exactly the fresh ids, one per sub-unit in order, and the old rows are kept. */
  lemma {:induction false} AddTasksContents(tasks: map<nat, TaskRow>, first: nat, name: string, version: string, units: seq<Unit>)
    requires forall id :: id in tasks ==> id < first
    ensures forall id :: id in AddTasks(tasks, first, name, version, units) <==> id in tasks || first <= id < first + |units|
    ensures forall id :: id in tasks ==> AddTasks(tasks, first, name, version, units)[id] == tasks[id]
    ensures forall i :: 0 <= i < |units| ==>
      AddTasks(tasks, first, name, version, units)[first + i] == TaskRow(name, units[i], version, CreatedStatus)
  {
    if units != [] {
      AddTasksContents(tasks, first, name, version, units[..|units| - 1]);
    }
  }

  /**
    The task name `get_or_create_context` stores as written: the loop over the
    plan rebinds `name`, so a task with parameters is stored under the name of
    its last parameter instead of its class name.
   */
  function TaskNameAsWritten(className: string, plan: seq<(string, Resolved)>): (name: string)
    ensures plan == [] ==> name == className
    ensures plan != [] ==> name == plan[|plan| - 1].0
  {
    if plan == [] then className else plan[|plan| - 1].0
  }

  /** A one-parameter task shows the discrepancy: its rows would be named after the parameter. */
  lemma TaskNameShadowed()
    ensures var plan := [("model_path", Resolved(Parameter(PlainParameter, false, None), VStr("m.pt"), false, 4, false))];
      TaskNameAsWritten("astra.contrib.apogeenet.tasks.Classify", plan) == "model_path"
      && "model_path" != "astra.contrib.apogeenet.tasks.Classify"
  {
  }

  // ---------------------------------------------------------------------------
  // The context.

  /**
    The execution context: `timing`, `input_data_products`, `tasks`, `bundle`
    (present but `None` for a single task), `iterable`, and the stage results
    stored under `pre_execute`, `execute` and `post_execute`. An absent key is
    `None`.
   */
  datatype Context = Context(
    timing: Option<Timing>,
    inputs: Option<Value>,
    tasks: Option<seq<nat>>,
    bundle: Option<Option<nat>>,
    iterable: Option<seq<Item>>,
    results: map<Stage, Value>)

  const EmptyContext := Context(None, None, None, None, None, map[])

  /** `len(context) == 0` */
  predicate IsEmpty(c: Context) {
    c == EmptyContext
  }

  /** `context.setdefault("timing", {})` */
  function TimingOf(c: Context): Timing {
    if c.timing.Some? then c.timing.value else NoTiming
  }

  /** `context["timing"].get(f"time_{stage}_per_task", [])` */
  function PerTaskOf(c: Context, stage: Stage): seq<real> {
    var t := TimingOf(c);
    if stage in t.perTask then t.perTask[stage] else []
  }

  /** The context apart from its timing and its stored stage results: the work it holds. */
  function WorkOf(c: Context): Context {
    c.(timing := None, results := map[])
  }

  /** `context["timing"].get(f"time_{stage}_bundle")` */
  function BundleTimeOf(c: Context, stage: Stage): Option<real> {
    var t := TimingOf(c);
    if stage in t.bundleTime then Some(t.bundleTime[stage]) else None
  }

  /** An exception that leaves a stage: one the stage body raised, or one raised on its behalf. */
  datatype Exception = BodyException(description: string) | ContextException(error: PyError)

  datatype LogEntry =
    | CannotInferStage
    | TimingFailed(stage: Stage)
    | StageFailed(stage: Stage, exception: Exception)

  /**
    What a stage body does, as seen by the decorators: whether it iterates
    over the work items and how it consumes them, how long the
    whole stage takes, whether updating the timing fails, and what it returns
    or the exception it raises.
   */
  datatype StageBody = StageBody(
    iterates: Option<Consumer>,
    elapsed: real,
    timingFault: bool,
    outcome: Result<Value, string>)

  /** Does the body take items from `iterable()`? */
  predicate Iterates(body: StageBody) {
    body.iterates.Some? && Advanced(body.iterates.value)
  }

  /** The per-call toggles `decorate_pre_execute`, `decorate_execute` and `decorate_post_execute`. */
  datatype Toggles = Toggles(pre: bool, execute: bool, post: bool)

  const DefaultToggles := Toggles(true, true, true)

  /** A row whose status `update_status` sets. */
  datatype RowRef = TaskRef(task: nat) | BundleRef(bundle: nat)

  /** The rows `update_status` touches by default: the context's tasks, then its bundle. */
  function DefaultStatusItems(c: Context): (items: seq<Option<RowRef>>)
    ensures c.tasks.None? && c.bundle.None? ==> items == []
  {
    (if c.tasks.Some? then TaskRefs(c.tasks.value) else [])
      + (if c.bundle.Some? then [if c.bundle.value.Some? then Some(BundleRef(c.bundle.value.value)) else None] else [])
  }

  function TaskRefs(tasks: seq<nat>): (refs: seq<Option<RowRef>>)
    ensures |refs| == |tasks|
    ensures forall i :: 0 <= i < |tasks| ==> refs[i] == Some(TaskRef(tasks[i]))
  {
    if tasks == [] then [] else TaskRefs(tasks[..|tasks| - 1]) + [Some(TaskRef(tasks[|tasks| - 1]))]
  }

  /** Does `ref` name an existing row? */
  predicate Exists(tasks: map<nat, TaskRow>, bundles: map<nat, BundleRow>, ref: RowRef) {
    match ref
    case TaskRef(id) => id in tasks
    case BundleRef(id) => id in bundles
  }

  /** The number of updated rows: every non-`None` item whose row exists counts once per mention. */
  function CountExisting(tasks: map<nat, TaskRow>, bundles: map<nat, BundleRow>, items: seq<Option<RowRef>>): (n: nat)
    ensures n <= |items|
  {
    if items == [] then 0
    else
      var last := items[|items| - 1];
      CountExisting(tasks, bundles, items[..|items| - 1]) + (if last.Some? && Exists(tasks, bundles, last.value) then 1 else 0)
  }

  /** Items that name no existing row update nothing. */
  lemma {:induction false} CountNothing(tasks: map<nat, TaskRow>, bundles: map<nat, BundleRow>, items: seq<Option<RowRef>>)
    requires forall i :: 0 <= i < |items| ==> items[i].None? || !Exists(tasks, bundles, items[i].value)
    ensures CountExisting(tasks, bundles, items) == 0
  {
    if items != [] {
      CountNothing(tasks, bundles, items[..|items| - 1]);
    }
  }

  /** When every item names an existing row, every item is counted. */
  lemma {:induction false} CountAll(tasks: map<nat, TaskRow>, bundles: map<nat, BundleRow>, items: seq<Option<RowRef>>)
    requires forall i :: 0 <= i < |items| ==> items[i].Some? && Exists(tasks, bundles, items[i].value)
    ensures CountExisting(tasks, bundles, items) == |items|
  {
    if items != [] {
      CountAll(tasks, bundles, items[..|items| - 1]);
    }
  }

  /** Is the task row `id` named by one of the items? */
  predicate NamesTask(items: seq<Option<RowRef>>, id: nat) {
    Some(TaskRef(id)) in items
  }

  predicate NamesBundle(items: seq<Option<RowRef>>, id: nat) {
    Some(BundleRef(id)) in items
  }

  /** The number of items an iteration that times `times` consumes out of `items`. */
  function Consumed(times: seq<real>, items: seq<Item>): nat {
    if |times| < |items| then |times| else |items|
  }

  /**
    How the caller drives the generator `iterable` returns: it spends
    `times[i]` on the i-th item it takes, and after the last item it takes it
    either asks for one more (`exhausts`, as a `for` loop run to its end does)
    or stops (a `break`, or never asking at all).
   */
  datatype Consumer = Consumer(times: seq<real>, exhausts: bool)

  /** Does the caller ever call `next` on the generator? Until then none of its body runs. */
  predicate Advanced(c: Consumer) {
    |c.times| > 0 || c.exhausts
  }

  /**
    The item times the generator records out of `items`: the time of item i
    is recorded only when the generator resumes after yielding it, so a
    caller that stops after taking its items loses the last one's time.
   */
  function Recorded(c: Consumer, items: seq<Item>): (r: seq<real>)
    ensures var m := Consumed(c.times, items);
      |r| == (if c.exhausts || |c.times| > |items| || m == 0 then m else m - 1)
    ensures r == c.times[..|r|]
  {
    var m := Consumed(c.times, items);
    if c.exhausts || |c.times| > |items| || m == 0 then c.times[..m] else c.times[..m - 1]
  }

  /** What the stage timer logs on exit: a failed timing update, then the exception leaving the stage. */
  function TimerLog(stage: Stage, timingFault: bool, raised: Option<Exception>): seq<LogEntry> {
    (if timingFault then [TimingFailed(stage)] else [])
      + (if raised.Some? then [StageFailed(stage, raised.value)] else [])
  }

  /** The outcome of a stage body, as an exception when it raises. */
  function Raised(outcome: Result<Value, string>): Result<Value, Exception> {
    match outcome
    case Ok(v) => Ok(v)
    case Err(d) => Err(BodyException(d))
  }

  function ErrorOf(r: Result<Value, Exception>): Option<Exception> {
    if r.Err? then Some(r.error) else None
  }

  /** The order in which the decorated `execute` runs the stage bodies. */
  const StageOrder := [PreExecute, Execute, PostExecute]

  /** One item of `update_status`: `None` is skipped, a row is updated when it exists. */
  method SetRowStatus(store: TaskStore, item: Option<RowRef>, status: nat) returns (count: nat)
    requires store.Valid()
    modifies store
    ensures store.Valid()
    ensures count == if item.Some? && Exists(old(store.tasks), old(store.bundles), item.value) then 1 else 0
    ensures store.tasks.Keys == old(store.tasks).Keys && store.bundles.Keys == old(store.bundles).Keys
    ensures forall id :: id in old(store.tasks) ==>
      store.tasks[id] == if item == Some(TaskRef(id)) then old(store.tasks)[id].(status := status) else old(store.tasks)[id]
    ensures forall id :: id in old(store.bundles) ==>
      store.bundles[id] == if item == Some(BundleRef(id)) then BundleRow(status) else old(store.bundles)[id]
    ensures store.taskBundles == old(store.taskBundles) && store.statuses == old(store.statuses)
    ensures store.nextTaskId == old(store.nextTaskId) && store.nextBundleId == old(store.nextBundleId)
  {
    count := 0;
    if item.Some? {
      match item.value {
        case TaskRef(id) =>
          count := store.SetTaskStatus(id, status);
        case BundleRef(id) =>
          count := store.SetBundleStatus(id, status);
      }
    }
  }

  /** The loop of `update_status`: each item in turn, counting the rows updated. */
  method SetRowsStatus(store: TaskStore, targets: seq<Option<RowRef>>, status: nat) returns (n: nat)
    requires store.Valid()
    modifies store
    ensures store.Valid()
    ensures n == CountExisting(old(store.tasks), old(store.bundles), targets)
    ensures store.tasks.Keys == old(store.tasks).Keys && store.bundles.Keys == old(store.bundles).Keys
    ensures forall id :: id in old(store.tasks) ==>
      store.tasks[id] == if NamesTask(targets, id) then old(store.tasks)[id].(status := status) else old(store.tasks)[id]
    ensures forall id :: id in old(store.bundles) ==>
      store.bundles[id] == if NamesBundle(targets, id) then BundleRow(status) else old(store.bundles)[id]
    ensures store.taskBundles == old(store.taskBundles) && store.statuses == old(store.statuses)
    ensures store.nextTaskId == old(store.nextTaskId) && store.nextBundleId == old(store.nextBundleId)
  {
    n := 0;
    for i := 0 to |targets|
      invariant store.Valid()
      invariant n == CountExisting(old(store.tasks), old(store.bundles), targets[..i])
      invariant store.tasks.Keys == old(store.tasks).Keys && store.bundles.Keys == old(store.bundles).Keys
      invariant forall id :: id in old(store.tasks) ==>
        store.tasks[id] == if NamesTask(targets[..i], id) then old(store.tasks)[id].(status := status) else old(store.tasks)[id]
      invariant forall id :: id in old(store.bundles) ==>
        store.bundles[id] == if NamesBundle(targets[..i], id) then BundleRow(status) else old(store.bundles)[id]
      invariant store.taskBundles == old(store.taskBundles) && store.statuses == old(store.statuses)
      invariant store.nextTaskId == old(store.nextTaskId) && store.nextBundleId == old(store.nextBundleId)
    {
      assert targets[..i + 1] == targets[..i] + [targets[i]];
      var count := SetRowStatus(store, targets[i], status);
      n := n + count;
    }
    assert targets[..|targets|] == targets;
  }

  // ---------------------------------------------------------------------------
  // The state of a task instance as a value, and what each step of a stage
  // does to it.

  /**
    What a task instance is created with: its class name, the version it
    stamps on its rows, its bundle size, its resolved parameters and what its
    input data products resolve to.
   */
  datatype Setup = Setup(
    className: string,
    version: string,
    bundleSize: nat,
    plan: seq<(string, Resolved)>,
    resolvedInputs: Result<Value, PyError>)

  /** The context, the log and the stage trace of a task instance, with the tables of its store. */
  datatype Snapshot = Snapshot(context: Context, log: seq<LogEntry>, trace: seq<Stage>, store: StoreState)

  /** Do the resolved inputs and every sub-unit slice succeed, so that the context can be created? */
  predicate CanCreate(setup: Setup) {
    setup.resolvedInputs.Ok? && Units(setup.plan, setup.bundleSize).Ok?
  }

  /** The exception raised when the context cannot be created. */
  function CreationError(setup: Setup): PyError
    requires !CanCreate(setup)
  {
    if setup.resolvedInputs.Err? then setup.resolvedInputs.error else Units(setup.plan, setup.bundleSize).error.1
  }

  /**
    The sub-units `get_or_create_context` creates Task rows for: all of
    them, or those before the first one whose slicing raises; none when the
    input data products fail to resolve.
   */
  function CreatedUnits(setup: Setup): (us: seq<Unit>)
    ensures setup.resolvedInputs.Ok? ==> Units(setup.plan, |us|) == Ok(us)
    ensures CanCreate(setup) ==> |us| == setup.bundleSize
    ensures setup.resolvedInputs.Ok? && !CanCreate(setup) ==> |us| == Units(setup.plan, setup.bundleSize).error.0
    ensures setup.resolvedInputs.Err? ==> us == []
  {
    if setup.resolvedInputs.Err? then []
    else
      match Units(setup.plan, setup.bundleSize)
      case Ok(us) => us
      case Err(e) => UnitsFailure(setup.plan, setup.bundleSize); Units(setup.plan, e.0).value
  }

  /**
    The tables after `get_or_create_context` on a context without work
    items: a Task row per created sub-unit at the next ids and, when every
    sub-unit was created and there are more than one, a Bundle row at the
    next bundle id joined to all of them.
   */
  function AfterCreation(setup: Setup, s: StoreState): StoreState {
    var us := CreatedUnits(setup);
    var s1 := s.(tasks := AddTasks(s.tasks, s.nextTaskId, setup.className, setup.version, us), nextTaskId := s.nextTaskId + |us|);
    if CanCreate(setup) && setup.bundleSize > 1 then
      s1.(bundles := s.bundles[s.nextBundleId := BundleRow(CreatedStatus)],
          taskBundles := s.taskBundles + ChunkLinks(Range(s.nextTaskId, setup.bundleSize), s.nextBundleId),
          nextBundleId := s.nextBundleId + 1)
    else s1
  }

  /**
    The context after `get_or_create_context` succeeds on `c`, created
    against the tables `s`: the resolved inputs, the new task ids, the
    bundle (`None` for a single task) and one work item per sub-unit.
   */
  function CreatedContext(setup: Setup, c: Context, s: StoreState): Context
    requires CanCreate(setup)
  {
    c.(inputs := Some(setup.resolvedInputs.value),
       tasks := Some(Range(s.nextTaskId, setup.bundleSize)),
       bundle := Some(if setup.bundleSize > 1 then Some(s.nextBundleId) else None),
       iterable := Some(MakeItems(s.nextTaskId, Units(setup.plan, setup.bundleSize).value)))
  }

  /**
    Does a stage try to create the context: a decorated pre- or
    post-execute stage on an empty context, or a body that iterates before
    the context has work items?
   */
  predicate Opens(c: Context, decorate: bool, body: StageBody) {
    c.iterable.None? && ((decorate && IsEmpty(c)) || Iterates(body))
  }

  /**
    Does `decorate_execute` try to create the context in one of its stages?
    Each stage runs only when the ones before it returned, and a stage run
    under the timer leaves the context non-empty.
   */
  predicate ExecuteOpens(c: Context, toggles: Toggles, pre: StageBody, exec: StageBody, post: StageBody) {
    if !toggles.execute then Opens(c, false, exec)
    else Opens(c, toggles.pre, pre) || (c.iterable.None? && pre.outcome.Ok? && (Iterates(exec) || (exec.outcome.Ok? && Iterates(post))))
  }

  /** Does a body's iteration reach the work items: it asks for one, and the context has them or can create them? */
  predicate Reaches(setup: Setup, c: Context, body: StageBody) {
    Iterates(body) && (c.iterable.Some? || CanCreate(setup))
  }

  /** The context with `stage`'s per-item list set to `per`, its timing entry created if needed. */
  function WithPerTask(c: Context, stage: Stage, per: seq<real>): Context {
    var t := TimingOf(c);
    c.(timing := Some(t.(perTask := t.perTask[stage := per])))
  }

  /**
    `if "iterable" not in self.context: self.get_or_create_context()`:
    the state afterwards, and the exception creation raised, if any.
   */
  function AfterOpen(setup: Setup, w: Snapshot): (r: (Snapshot, Option<PyError>))
    ensures r.1.None? ==> r.0.context.iterable.Some?
    ensures r.1.Some? <==> w.context.iterable.None? && !CanCreate(setup)
    ensures r.1.Some? ==> !CanCreate(setup) && r.1.value == CreationError(setup)
  {
    if w.context.iterable.Some? then (w, None)
    else if CanCreate(setup) then (w.(context := CreatedContext(setup, w.context, w.store), store := AfterCreation(setup, w.store)), None)
    else (w.(store := AfterCreation(setup, w.store)), Some(CreationError(setup)))
  }

  /**
    `iterable(stage)`, driven by `consumer`: the state afterwards, and the
    items the consumer took or the exception creating the context raised.
   */
  function AfterIterate(setup: Setup, w: Snapshot, stage: Option<Stage>, consumer: Consumer): (Snapshot, Result<seq<Item>, PyError>) {
    if !Advanced(consumer) then (w, Ok([]))
    else
      var w1 :=
        if stage.None? then w.(log := w.log + [CannotInferStage])
        else w.(context := WithPerTask(w.context, stage.value, PerTaskOf(w.context, stage.value)));
      var o := AfterOpen(setup, w1);
      if o.1.Some? then (o.0, Err(o.1.value))
      else
        var all := o.0.context.iterable.value;
        var c :=
          if stage.None? then o.0.context
          else WithPerTask(o.0.context, stage.value, Accumulate(PerTaskOf(o.0.context, stage.value), Recorded(consumer, all)));
        (o.0.(context := c), Ok(all[..Consumed(consumer.times, all)]))
  }

  /** An undecorated stage body: the state afterwards and what leaves the body. */
  function AfterBody(setup: Setup, w: Snapshot, stage: Stage, body: StageBody): (Snapshot, Result<Value, Exception>) {
    var w1 := w.(trace := w.trace + [stage]);
    if body.iterates.None? then (w1, Raised(body.outcome))
    else
      var it := AfterIterate(setup, w1, Some(stage), body.iterates.value);
      (it.0, if it.1.Err? then Err(ContextException(it.1.error)) else Raised(body.outcome))
  }

  /**
    The context after the stage timer exits: the timing entry exists, and it
    records the stage's elapsed time unless updating it fails. The work, the
    results and every per-item list are kept; only the stage's own bundle
    time changes, to its elapsed time less its per-item times.
   */
  function ExitContext(c: Context, stage: Stage, body: StageBody): Context
  {
    var t := TimingOf(c);
    c.(timing := Some(if body.timingFault then t else TimingAfter(t, stage, body.elapsed)))
  }

  /** The properties of the timer's exit on the context, listed above. */
  lemma ExitContextSpec(c: Context, stage: Stage, body: StageBody, c': Context)
    requires c' == ExitContext(c, stage, body)
    ensures c'.timing.Some?
    ensures WorkOf(c') == WorkOf(c) && c'.results == c.results
    ensures forall s :: PerTaskOf(c', s) == PerTaskOf(c, s)
    ensures body.timingFault ==> TimingOf(c') == TimingOf(c)
    ensures forall s :: s != stage ==> BundleTimeOf(c', s) == BundleTimeOf(c, s)
    ensures !body.timingFault ==> BundleTimeOf(c', stage) == Some(body.elapsed - Sum(PerTaskOf(c', stage)))
  {
    if !body.timingFault {
      TimingAfterSpec(TimingOf(c), stage, body.elapsed);
    }
  }

  /**
    The timer's exit after a body that left the state `b` and returned or
    raised `br`: the timer's log entries and timing update, and the returned
    value stored under the stage. The work, the tables, the trace and every
    per-item list are kept.
   */
  function TimerExit(b: Snapshot, br: Result<Value, Exception>, stage: Stage, body: StageBody): Snapshot
  {
    var c := ExitContext(b.context, stage, body);
    b.(context := if br.Ok? then c.(results := c.results[stage := br.value]) else c,
       log := b.log + TimerLog(stage, body.timingFault, ErrorOf(br)))
  }

  /** The properties of the timer's exit, listed above. */
  lemma TimerExitSpec(b: Snapshot, br: Result<Value, Exception>, stage: Stage, body: StageBody, w': Snapshot)
    requires w' == TimerExit(b, br, stage, body)
    ensures w'.trace == b.trace && w'.store == b.store
    ensures WorkOf(w'.context) == WorkOf(b.context) && w'.context.iterable == b.context.iterable
    ensures w'.log == b.log + TimerLog(stage, body.timingFault, ErrorOf(br))
    ensures w'.context.timing.Some?
    ensures w'.context.results == if br.Ok? then b.context.results[stage := br.value] else b.context.results
    ensures forall s :: PerTaskOf(w'.context, s) == PerTaskOf(b.context, s)
    ensures forall s :: s != stage ==> BundleTimeOf(w'.context, s) == BundleTimeOf(b.context, s)
    ensures !body.timingFault ==> BundleTimeOf(w'.context, stage) == Some(body.elapsed - Sum(PerTaskOf(w'.context, stage)))
    ensures body.timingFault ==> TimingOf(w'.context) == TimingOf(b.context)
    ensures !body.timingFault ==>
      && TimingOf(w'.context).stageTime == TimingOf(b.context).stageTime[stage := body.elapsed]
      && TimingOf(w'.context).total == Some(StageTime(TimingOf(w'.context), PreExecute)
           + StageTime(TimingOf(w'.context), Execute) + StageTime(TimingOf(w'.context), PostExecute))
  {
    ExitContextSpec(b.context, stage, body, ExitContext(b.context, stage, body));
  }

  /** A stage run under the timer, its returned value stored under the stage: the state afterwards and what leaves it. */
  function AfterTimed(setup: Setup, w: Snapshot, stage: Stage, body: StageBody): (Snapshot, Result<Value, Exception>) {
    var b := AfterBody(setup, w, stage, body);
    (TimerExit(b.0, b.1, stage, body), b.1)
  }

  /** `if len(task.context) == 0: task.context.update(task.get_or_create_context())` */
  function AfterCreateIfEmpty(setup: Setup, w: Snapshot): (Snapshot, Option<PyError>) {
    if IsEmpty(w.context) then AfterOpen(setup, w) else (w, None)
  }

  /** `decorate_pre_post_execute`: the state afterwards and what leaves the stage. */
  function AfterPrePost(setup: Setup, w: Snapshot, stage: Stage, decorate: bool, body: StageBody): (Snapshot, Result<Value, Exception>) {
    if !decorate then AfterBody(setup, w, stage, body)
    else
      var p := AfterCreateIfEmpty(setup, w);
      if p.1.Some? then (p.0, Err(ContextException(p.1.value))) else AfterTimed(setup, p.0, stage, body)
  }

  /** The timed `execute` body, then `post_execute` unless it raised. */
  function AfterExecuteThenPost(setup: Setup, w: Snapshot, decoratePost: bool, exec: StageBody, post: StageBody)
    : (Snapshot, Result<Value, Exception>)
  {
    var x := AfterTimed(setup, w, Execute, exec);
    if x.1.Err? then x
    else
      var q := AfterPrePost(setup, x.0, PostExecute, decoratePost, post);
      (q.0, if q.1.Err? then q.1 else x.1)
  }

  /** `decorate_execute`: the state afterwards and what leaves `execute`. */
  function AfterDecorateExecute(setup: Setup, w: Snapshot, toggles: Toggles, pre: StageBody, exec: StageBody, post: StageBody)
    : (Snapshot, Result<Value, Exception>)
  {
    if !toggles.execute then AfterBody(setup, w, Execute, exec)
    else
      var p := AfterPrePost(setup, w, PreExecute, toggles.pre, pre);
      if p.1.Err? then p else AfterExecuteThenPost(setup, p.0, toggles.post, exec, post)
  }

  /**
    `iterable(stage)`: a generator the caller never advances changes nothing;
    otherwise it warns when no stage is known, creates the stage's per-item
    list, creates the context when it has no work items (raising what
    creation raises), yields a prefix of the items, and adds the times it
    recorded to the stage's per-item list. Nothing else changes.
   */
  lemma IterateEffects(setup: Setup, w: Snapshot, stage: Option<Stage>, consumer: Consumer, w': Snapshot, r: Result<seq<Item>, PyError>)
    requires w' == AfterIterate(setup, w, stage, consumer).0 && r == AfterIterate(setup, w, stage, consumer).1
    ensures !Advanced(consumer) ==> w' == w && r == Ok([])
    ensures w'.log == w.log + (if stage.None? && Advanced(consumer) then [CannotInferStage] else [])
    ensures w'.trace == w.trace && w'.context.results == w.context.results
    ensures TimingOf(w'.context).stageTime == TimingOf(w.context).stageTime
    ensures TimingOf(w'.context).bundleTime == TimingOf(w.context).bundleTime
    ensures TimingOf(w'.context).total == TimingOf(w.context).total
    ensures stage.None? ==> w'.context.timing == w.context.timing
    ensures w.context.timing.Some? ==> w'.context.timing.Some?
    ensures stage.Some? && Advanced(consumer) ==> w'.context.timing.Some? && stage.value in w'.context.timing.value.perTask
    ensures w.context.iterable.Some? ==> r.Ok? && w'.context.iterable == w.context.iterable && w'.store == w.store
    ensures w.context.iterable.None? && Advanced(consumer) ==> (r.Ok? <==> CanCreate(setup))
    ensures r.Err? ==> !CanCreate(setup) && r.error == CreationError(setup)
    ensures WorkOf(w'.context) ==
      if Advanced(consumer) && w.context.iterable.None? && CanCreate(setup) then WorkOf(CreatedContext(setup, w.context, w.store))
      else WorkOf(w.context)
    ensures w'.store == if Advanced(consumer) && w.context.iterable.None? then AfterCreation(setup, w.store) else w.store
  {
  }

  /**
    The items `iterable(stage)` yields and the times it records: the work
    items the context has or creates, a prefix of them as long as the
    consumer took, and the stage's per-item list grown by the recorded times;
    every other stage's list is kept.
   */
  lemma IterateItems(setup: Setup, w: Snapshot, stage: Option<Stage>, consumer: Consumer, w': Snapshot, r: Result<seq<Item>, PyError>)
    requires w' == AfterIterate(setup, w, stage, consumer).0 && r == AfterIterate(setup, w, stage, consumer).1
    ensures forall s :: stage != Some(s) ==> PerTaskOf(w'.context, s) == PerTaskOf(w.context, s)
    ensures w.context.iterable.None? && Advanced(consumer) && r.Ok? ==>
      w'.context.iterable == Some(MakeItems(w.store.nextTaskId, Units(setup.plan, setup.bundleSize).value))
    ensures r.Ok? && Advanced(consumer) ==>
      && w'.context.iterable.Some?
      && |r.value| == Consumed(consumer.times, w'.context.iterable.value)
      && r.value == w'.context.iterable.value[..|r.value|]
    ensures stage.Some? ==>
      PerTaskOf(w'.context, stage.value) ==
        if r.Ok? && Advanced(consumer) then Accumulate(PerTaskOf(w.context, stage.value), Recorded(consumer, w'.context.iterable.value))
        else PerTaskOf(w.context, stage.value)
    ensures stage.Some? && r.Ok? && Advanced(consumer) ==>
      Sum(PerTaskOf(w'.context, stage.value)) == Sum(PerTaskOf(w.context, stage.value)) + Sum(Recorded(consumer, w'.context.iterable.value))
  {
    if stage.Some? && r.Ok? && Advanced(consumer) {
      SumAccumulate(PerTaskOf(w.context, stage.value), Recorded(consumer, w'.context.iterable.value));
    }
  }

  /**
    An undecorated stage body: it is added to the trace; a body that does not
    iterate changes nothing else and returns its outcome; one that iterates
    does what `iterable` does, and raises the creation error when the context
    has no work items and cannot be created.
   */
  lemma BodyEffects(setup: Setup, w: Snapshot, stage: Stage, body: StageBody, w': Snapshot, r: Result<Value, Exception>)
    requires w' == AfterBody(setup, w, stage, body).0 && r == AfterBody(setup, w, stage, body).1
    ensures w'.trace == w.trace + [stage] && w'.log == w.log
    ensures w'.context.results == w.context.results
    ensures TimingOf(w'.context).stageTime == TimingOf(w.context).stageTime
    ensures TimingOf(w'.context).bundleTime == TimingOf(w.context).bundleTime
    ensures TimingOf(w'.context).total == TimingOf(w.context).total
    ensures w.context.timing.Some? ==> w'.context.timing.Some?
    ensures !Iterates(body) ==> w' == w.(trace := w.trace + [stage]) && r == Raised(body.outcome)
    ensures !Iterates(body) || w.context.iterable.Some? || CanCreate(setup) ==> r == Raised(body.outcome)
    ensures Iterates(body) && w.context.iterable.None? && !CanCreate(setup) ==>
      r == Err(ContextException(CreationError(setup)))
    ensures w.context.iterable.Some? ==> w'.context.iterable == w.context.iterable
    ensures forall s :: s != stage ==> PerTaskOf(w'.context, s) == PerTaskOf(w.context, s)
    ensures Reaches(setup, w.context, body) ==> w'.context.iterable.Some?
    ensures PerTaskOf(w'.context, stage) ==
      if Reaches(setup, w.context, body) then Accumulate(PerTaskOf(w.context, stage), Recorded(body.iterates.value, w'.context.iterable.value))
      else PerTaskOf(w.context, stage)
    ensures Reaches(setup, w.context, body) ==>
      Sum(PerTaskOf(w'.context, stage)) == Sum(PerTaskOf(w.context, stage)) + Sum(Recorded(body.iterates.value, w'.context.iterable.value))
    ensures WorkOf(w'.context) ==
      if Opens(w.context, false, body) && CanCreate(setup) then WorkOf(CreatedContext(setup, w.context, w.store))
      else WorkOf(w.context)
    ensures w'.store == if Opens(w.context, false, body) then AfterCreation(setup, w.store) else w.store
  {
    if body.iterates.Some? {
      var w1 := w.(trace := w.trace + [stage]);
      var it := AfterIterate(setup, w1, Some(stage), body.iterates.value);
      IterateEffects(setup, w1, Some(stage), body.iterates.value, it.0, it.1);
      IterateItems(setup, w1, Some(stage), body.iterates.value, it.0, it.1);
    }
  }

  /**
    A stage under the timer: the body's outcome and trace, then the timer's
    log entries, the stage time and the total (unless updating the timing
    fails), and the returned value stored under the stage.
   */
  lemma TimedEffects(setup: Setup, w: Snapshot, stage: Stage, body: StageBody, w': Snapshot, r: Result<Value, Exception>)
    requires w' == AfterTimed(setup, w, stage, body).0 && r == AfterTimed(setup, w, stage, body).1
    ensures !Iterates(body) || w.context.iterable.Some? || CanCreate(setup) ==> r == Raised(body.outcome)
    ensures Iterates(body) && w.context.iterable.None? && !CanCreate(setup) ==>
      r == Err(ContextException(CreationError(setup)))
    ensures w'.trace == w.trace + [stage]
    ensures w'.log == w.log + TimerLog(stage, body.timingFault, ErrorOf(r))
    ensures w'.context.timing.Some?
    ensures w'.context.results == if r.Ok? then w.context.results[stage := r.value] else w.context.results
    ensures body.timingFault ==>
      && TimingOf(w'.context).stageTime == TimingOf(w.context).stageTime
      && TimingOf(w'.context).bundleTime == TimingOf(w.context).bundleTime
      && TimingOf(w'.context).total == TimingOf(w.context).total
    ensures !body.timingFault ==>
      && TimingOf(w'.context).stageTime == TimingOf(w.context).stageTime[stage := body.elapsed]
      && TimingOf(w'.context).total == Some(StageTime(TimingOf(w'.context), PreExecute)
           + StageTime(TimingOf(w'.context), Execute) + StageTime(TimingOf(w'.context), PostExecute))
  {
    var b := AfterBody(setup, w, stage, body);
    BodyEffects(setup, w, stage, body, b.0, b.1);
    TimerExitSpec(b.0, b.1, stage, body, w');
  }

  /**
    The times a stage under the timer leaves: the stage's per-item list gains
    the times its iteration recorded, and its bundle time becomes its elapsed
    time less its per-item times; every other stage's entries are kept.
   */
  lemma TimedTimes(setup: Setup, w: Snapshot, stage: Stage, body: StageBody, w': Snapshot, r: Result<Value, Exception>)
    requires w' == AfterTimed(setup, w, stage, body).0 && r == AfterTimed(setup, w, stage, body).1
    ensures w.context.iterable.Some? ==> w'.context.iterable == w.context.iterable
    ensures forall s :: s != stage ==> PerTaskOf(w'.context, s) == PerTaskOf(w.context, s)
    ensures Reaches(setup, w.context, body) ==> w'.context.iterable.Some?
    ensures PerTaskOf(w'.context, stage) ==
      if Reaches(setup, w.context, body) then Accumulate(PerTaskOf(w.context, stage), Recorded(body.iterates.value, w'.context.iterable.value))
      else PerTaskOf(w.context, stage)
  {
    var b := AfterBody(setup, w, stage, body);
    BodyEffects(setup, w, stage, body, b.0, b.1);
    TimerExitSpec(b.0, b.1, stage, body, w');
  }

  /**
    The bundle times a stage under the timer leaves: unless updating the
    timing fails, the stage's bundle time is its elapsed time less its
    per-item times; every other stage's bundle time is kept.
   */
  lemma TimedBundleTimes(setup: Setup, w: Snapshot, stage: Stage, body: StageBody, w': Snapshot, r: Result<Value, Exception>)
    requires w' == AfterTimed(setup, w, stage, body).0 && r == AfterTimed(setup, w, stage, body).1
    ensures !body.timingFault ==> BundleTimeOf(w'.context, stage) == Some(body.elapsed - Sum(PerTaskOf(w'.context, stage)))
    ensures forall s :: s != stage ==> BundleTimeOf(w'.context, s) == BundleTimeOf(w.context, s)
  {
    var b := AfterBody(setup, w, stage, body);
    BodyEffects(setup, w, stage, body, b.0, b.1);
    TimerExitSpec(b.0, b.1, stage, body, w');
  }

  /** A stage under the timer creates the context, and its rows, exactly when its body does. */
  lemma TimedWork(setup: Setup, w: Snapshot, stage: Stage, body: StageBody, w': Snapshot, r: Result<Value, Exception>)
    requires w' == AfterTimed(setup, w, stage, body).0 && r == AfterTimed(setup, w, stage, body).1
    ensures WorkOf(w'.context) ==
      if Opens(w.context, false, body) && CanCreate(setup) then WorkOf(CreatedContext(setup, w.context, w.store))
      else WorkOf(w.context)
    ensures w'.store == if Opens(w.context, false, body) then AfterCreation(setup, w.store) else w.store
  {
    var b := AfterBody(setup, w, stage, body);
    BodyEffects(setup, w, stage, body, b.0, b.1);
    TimerExitSpec(b.0, b.1, stage, body, w');
  }

  /**
    `if len(task.context) == 0: task.context.update(task.get_or_create_context())`:
    a context that holds anything is left alone; an empty one is created,
    with one work item per sub-unit, or its creation error is returned.
   */
  lemma CreateIfEmptyEffects(setup: Setup, w: Snapshot, w': Snapshot, e: Option<PyError>)
    requires w' == AfterCreateIfEmpty(setup, w).0 && e == AfterCreateIfEmpty(setup, w).1
    ensures !IsEmpty(w.context) ==> w' == w && e.None?
    ensures IsEmpty(w.context) && CanCreate(setup) ==>
      && e.None? && w'.trace == w.trace && w'.log == w.log
      && w'.context == CreatedContext(setup, w.context, w.store)
      && w'.context.iterable == Some(MakeItems(w.store.nextTaskId, Units(setup.plan, setup.bundleSize).value))
      && |w'.context.iterable.value| == setup.bundleSize
      && w'.store == AfterCreation(setup, w.store)
    ensures IsEmpty(w.context) && !CanCreate(setup) ==>
      e == Some(CreationError(setup)) && w' == w.(store := AfterCreation(setup, w.store))
  {
  }

  /**
    `decorate_pre_post_execute`: what leaves the stage. When the stage is
    decorated and the context is empty and cannot be created, the creation
    error is raised and only the rows created so far change.
   */
  lemma PrePostEffects(setup: Setup, w: Snapshot, stage: Stage, decorate: bool, body: StageBody, w': Snapshot, r: Result<Value, Exception>)
    requires w' == AfterPrePost(setup, w, stage, decorate, body).0 && r == AfterPrePost(setup, w, stage, decorate, body).1
    ensures r.Ok? ==> r == Raised(body.outcome)
    ensures Iterates(body) && w.context.iterable.None? && !CanCreate(setup) ==> r.Err?
    ensures decorate && IsEmpty(w.context) && !CanCreate(setup) ==>
      r == Err(ContextException(CreationError(setup))) && w' == w.(store := AfterCreation(setup, w.store))
    ensures w.context.timing.Some? ==> w'.context.timing.Some?
  {
    if !decorate {
      BodyEffects(setup, w, stage, body, w', r);
    } else {
      var p := AfterCreateIfEmpty(setup, w);
      if p.1.None? {
        TimedEffects(setup, p.0, stage, body, w', r);
      }
    }
  }

  /** An undecorated `decorate_pre_post_execute` runs the body alone. */
  lemma PrePostUndecorated(setup: Setup, w: Snapshot, stage: Stage, body: StageBody, w': Snapshot, r: Result<Value, Exception>)
    requires w' == AfterPrePost(setup, w, stage, false, body).0 && r == AfterPrePost(setup, w, stage, false, body).1
    ensures w' == AfterBody(setup, w, stage, body).0 && r == AfterBody(setup, w, stage, body).1
  {
  }

  /**
    What `decorate_pre_post_execute` records: undecorated, only the trace;
    decorated, unless creating the context failed, the trace, the timer's log
    entries, the returned value under the stage, and the stage time and the
    total unless updating the timing fails.
   */
  lemma PrePostRecords(setup: Setup, w: Snapshot, stage: Stage, decorate: bool, body: StageBody, w': Snapshot, r: Result<Value, Exception>)
    requires w' == AfterPrePost(setup, w, stage, decorate, body).0 && r == AfterPrePost(setup, w, stage, decorate, body).1
    ensures !decorate ==>
      && w'.trace == w.trace + [stage] && w'.log == w.log && w'.context.results == w.context.results
      && TimingOf(w'.context).stageTime == TimingOf(w.context).stageTime
      && TimingOf(w'.context).total == TimingOf(w.context).total
    ensures decorate && !(IsEmpty(w.context) && !CanCreate(setup)) ==>
      && w'.trace == w.trace + [stage]
      && w'.log == w.log + TimerLog(stage, body.timingFault, ErrorOf(r))
      && w'.context.timing.Some?
      && w'.context.results == (if r.Ok? then w.context.results[stage := r.value] else w.context.results)
      && (body.timingFault ==> TimingOf(w'.context).stageTime == TimingOf(w.context).stageTime)
      && (!body.timingFault ==>
           && TimingOf(w'.context).stageTime == TimingOf(w.context).stageTime[stage := body.elapsed]
           && TimingOf(w'.context).total == Some(StageTime(TimingOf(w'.context), PreExecute)
                + StageTime(TimingOf(w'.context), Execute) + StageTime(TimingOf(w'.context), PostExecute)))
  {
    if !decorate {
      BodyEffects(setup, w, stage, body, w', r);
    } else {
      var p := AfterCreateIfEmpty(setup, w);
      if p.1.None? {
        TimedEffects(setup, p.0, stage, body, w', r);
      }
    }
  }

  /**
    The times `decorate_pre_post_execute` leaves: the stage's per-item list
    gains the times its iteration recorded and, when the stage ran under the
    timer and updating the timing succeeded, its bundle time is its elapsed
    time less its per-item times; every other stage's entries are kept.
   */
  lemma PrePostTimes(setup: Setup, w: Snapshot, stage: Stage, decorate: bool, body: StageBody, w': Snapshot, r: Result<Value, Exception>)
    requires w' == AfterPrePost(setup, w, stage, decorate, body).0 && r == AfterPrePost(setup, w, stage, decorate, body).1
    ensures w.context.iterable.Some? ==> w'.context.iterable == w.context.iterable
    ensures forall s :: s != stage ==> PerTaskOf(w'.context, s) == PerTaskOf(w.context, s)
    ensures Reaches(setup, w.context, body) ==> w'.context.iterable.Some?
    ensures PerTaskOf(w'.context, stage) ==
      if Reaches(setup, w.context, body) then Accumulate(PerTaskOf(w.context, stage), Recorded(body.iterates.value, w'.context.iterable.value))
      else PerTaskOf(w.context, stage)
  {
    if !decorate {
      BodyEffects(setup, w, stage, body, w', r);
    } else {
      var p := AfterCreateIfEmpty(setup, w);
      if p.1.None? {
        TimedTimes(setup, p.0, stage, body, w', r);
      }
    }
  }

  /**
    The bundle times `decorate_pre_post_execute` leaves: a decorated stage
    whose timing update succeeds records its elapsed time less its per-item
    times; every other bundle time is kept.
   */
  lemma PrePostBundleTimes(setup: Setup, w: Snapshot, stage: Stage, decorate: bool, body: StageBody, w': Snapshot, r: Result<Value, Exception>)
    requires w' == AfterPrePost(setup, w, stage, decorate, body).0 && r == AfterPrePost(setup, w, stage, decorate, body).1
    ensures forall s :: s != stage ==> BundleTimeOf(w'.context, s) == BundleTimeOf(w.context, s)
    ensures !decorate || body.timingFault ==> TimingOf(w'.context).bundleTime == TimingOf(w.context).bundleTime
    ensures decorate && !(IsEmpty(w.context) && !CanCreate(setup)) && !body.timingFault ==>
      BundleTimeOf(w'.context, stage) == Some(body.elapsed - Sum(PerTaskOf(w'.context, stage)))
  {
    if !decorate {
      BodyEffects(setup, w, stage, body, w', r);
    } else {
      var p := AfterCreateIfEmpty(setup, w);
      if p.1.None? {
        TimedEffects(setup, p.0, stage, body, w', r);
        TimedBundleTimes(setup, p.0, stage, body, w', r);
      }
    }
  }

  /** `decorate_pre_post_execute` keeps another stage's per-item list and bundle time. */
  lemma PrePostKeepsOther(setup: Setup, w: Snapshot, stage: Stage, decorate: bool, body: StageBody, w': Snapshot, r: Result<Value, Exception>, other: Stage)
    requires w' == AfterPrePost(setup, w, stage, decorate, body).0 && r == AfterPrePost(setup, w, stage, decorate, body).1
    requires other != stage
    ensures PerTaskOf(w'.context, other) == PerTaskOf(w.context, other)
    ensures BundleTimeOf(w'.context, other) == BundleTimeOf(w.context, other)
  {
    PrePostTimes(setup, w, stage, decorate, body, w', r);
    PrePostBundleTimes(setup, w, stage, decorate, body, w', r);
  }

  /** `decorate_pre_post_execute` creates the context, and its rows, exactly when the stage tries to. */
  lemma PrePostWork(setup: Setup, w: Snapshot, stage: Stage, decorate: bool, body: StageBody, w': Snapshot, r: Result<Value, Exception>)
    requires w' == AfterPrePost(setup, w, stage, decorate, body).0 && r == AfterPrePost(setup, w, stage, decorate, body).1
    ensures WorkOf(w'.context) ==
      if Opens(w.context, decorate, body) && CanCreate(setup) then WorkOf(CreatedContext(setup, w.context, w.store))
      else WorkOf(w.context)
    ensures w'.store == if Opens(w.context, decorate, body) then AfterCreation(setup, w.store) else w.store
  {
    if !decorate {
      BodyEffects(setup, w, stage, body, w', r);
    } else {
      var p := AfterCreateIfEmpty(setup, w);
      if p.1.None? {
        TimedWork(setup, p.0, stage, body, w', r);
      }
    }
  }

  /**
    The timed `execute` body and then `post_execute`: `post_execute` runs
    only when `execute` returned, and the value returned is `execute`'s.
   */
  lemma ThenPostEffects(setup: Setup, w: Snapshot, decoratePost: bool, exec: StageBody, post: StageBody, w': Snapshot, r: Result<Value, Exception>)
    requires w' == AfterExecuteThenPost(setup, w, decoratePost, exec, post).0 && r == AfterExecuteThenPost(setup, w, decoratePost, exec, post).1
    ensures r.Ok? ==> r == Raised(exec.outcome) && post.outcome.Ok?
    ensures exec.outcome.Err? ==> r.Err? && w'.trace == w.trace + [Execute]
    ensures w'.trace == w.trace + [Execute] || w'.trace == w.trace + [Execute, PostExecute]
    ensures r.Ok? ==> w'.trace == w.trace + [Execute, PostExecute]
  {    var x := AfterTimed(setup, w, Execute, exec);
    TimedEffects(setup, w, Execute, exec, x.0, x.1);
    if x.1.Ok? {
      assert !IsEmpty(x.0.context);
      var q := AfterPrePost(setup, x.0, PostExecute, decoratePost, post);
      PrePostEffects(setup, x.0, PostExecute, decoratePost, post, q.0, q.1);
      PrePostRecords(setup, x.0, PostExecute, decoratePost, post, q.0, q.1);
    }
  }

  /**
    What the timed `execute` and then `post_execute` store: when both
    returned, `execute`'s value under `execute` and, when `post_execute` is
    timed, its value under `post_execute`; and, when both are timed without a
    fault, their elapsed times and the total.
   */
  lemma ThenPostResults(setup: Setup, w: Snapshot, decoratePost: bool, exec: StageBody, post: StageBody, w': Snapshot, r: Result<Value, Exception>)
    requires w' == AfterExecuteThenPost(setup, w, decoratePost, exec, post).0 && r == AfterExecuteThenPost(setup, w, decoratePost, exec, post).1
    ensures r.Ok? ==> (
      && exec.outcome.Ok? && post.outcome.Ok?
      && w'.context.results ==
           if decoratePost then w.context.results[Execute := exec.outcome.value][PostExecute := post.outcome.value]
           else w.context.results[Execute := exec.outcome.value])
  {    var x := AfterTimed(setup, w, Execute, exec);
    TimedEffects(setup, w, Execute, exec, x.0, x.1);
    if x.1.Ok? {
      assert !IsEmpty(x.0.context);
      var q := AfterPrePost(setup, x.0, PostExecute, decoratePost, post);
      PrePostEffects(setup, x.0, PostExecute, decoratePost, post, q.0, q.1);
      PrePostRecords(setup, x.0, PostExecute, decoratePost, post, q.0, q.1);
    }
  }

  /**
    The times the timed `execute` and then a timed `post_execute` record when
    both return without a timing fault: their elapsed times, and a total of
    `pre_execute`'s recorded time plus theirs.
   */
  lemma ThenPostTimings(setup: Setup, w: Snapshot, decoratePost: bool, exec: StageBody, post: StageBody, w': Snapshot, r: Result<Value, Exception>)
    requires w' == AfterExecuteThenPost(setup, w, decoratePost, exec, post).0 && r == AfterExecuteThenPost(setup, w, decoratePost, exec, post).1
    ensures r.Ok? && !exec.timingFault && decoratePost && !post.timingFault ==>
      && TimingOf(w'.context).stageTime == TimingOf(w.context).stageTime[Execute := exec.elapsed][PostExecute := post.elapsed]
      && TimingOf(w'.context).total == Some(StageTime(TimingOf(w.context), PreExecute) + exec.elapsed + post.elapsed)
  {    var x := AfterTimed(setup, w, Execute, exec);
    TimedEffects(setup, w, Execute, exec, x.0, x.1);
    if x.1.Ok? {
      assert !IsEmpty(x.0.context);
      var q := AfterPrePost(setup, x.0, PostExecute, decoratePost, post);
      PrePostRecords(setup, x.0, PostExecute, decoratePost, post, q.0, q.1);
    }
    TotalAfterExecAndPost(TimingOf(w.context), TimingOf(w'.context), exec.elapsed, post.elapsed);
  }


  /**
    The times the timed `execute` and then `post_execute` leave: each stage
    that iterates and is reached adds the times it recorded to its own list,
    and each timed stage that returned records its elapsed time less its
    per-item times as its bundle time.
   */
  lemma ThenPostTimes(setup: Setup, w: Snapshot, decoratePost: bool, exec: StageBody, post: StageBody, w': Snapshot, r: Result<Value, Exception>)
    requires w' == AfterExecuteThenPost(setup, w, decoratePost, exec, post).0 && r == AfterExecuteThenPost(setup, w, decoratePost, exec, post).1
    ensures w.context.iterable.Some? ==> w'.context.iterable == w.context.iterable
    ensures Reaches(setup, w.context, exec) ==>
      && w'.context.iterable.Some?
      && PerTaskOf(w'.context, Execute) == Accumulate(PerTaskOf(w.context, Execute), Recorded(exec.iterates.value, w'.context.iterable.value))
    ensures !Iterates(exec) ==> PerTaskOf(w'.context, Execute) == PerTaskOf(w.context, Execute)
    ensures r.Ok? && Iterates(post) ==>
      && w'.context.iterable.Some?
      && PerTaskOf(w'.context, PostExecute) == Accumulate(PerTaskOf(w.context, PostExecute), Recorded(post.iterates.value, w'.context.iterable.value))
    ensures !Iterates(post) ==> PerTaskOf(w'.context, PostExecute) == PerTaskOf(w.context, PostExecute)
  {
    var x := AfterTimed(setup, w, Execute, exec);
    TimedEffects(setup, w, Execute, exec, x.0, x.1);
    TimedTimes(setup, w, Execute, exec, x.0, x.1);
    if x.1.Ok? {
      assert !IsEmpty(x.0.context);
      var q := AfterPrePost(setup, x.0, PostExecute, decoratePost, post);
      PrePostEffects(setup, x.0, PostExecute, decoratePost, post, q.0, q.1);
      PrePostTimes(setup, x.0, PostExecute, decoratePost, post, q.0, q.1);
    }
  }

  /** The timed `execute` and then `post_execute` keep `pre_execute`'s per-item list and bundle time. */
  lemma ThenPostKeepsPre(setup: Setup, w: Snapshot, decoratePost: bool, exec: StageBody, post: StageBody, w': Snapshot, r: Result<Value, Exception>)
    requires w' == AfterExecuteThenPost(setup, w, decoratePost, exec, post).0 && r == AfterExecuteThenPost(setup, w, decoratePost, exec, post).1
    ensures PerTaskOf(w'.context, PreExecute) == PerTaskOf(w.context, PreExecute)
  {
    var x := AfterTimed(setup, w, Execute, exec);
    TimedTimes(setup, w, Execute, exec, x.0, x.1);
    if x.1.Ok? {
      var q := AfterPrePost(setup, x.0, PostExecute, decoratePost, post);
      PrePostTimes(setup, x.0, PostExecute, decoratePost, post, q.0, q.1);
    }
  }

  /** The timed `execute` and then `post_execute` keep the bundle time of `pre_execute`. */
  lemma ThenPostKeepsPreBundle(setup: Setup, w: Snapshot, decoratePost: bool, exec: StageBody, post: StageBody, w': Snapshot, r: Result<Value, Exception>)
    requires w' == AfterExecuteThenPost(setup, w, decoratePost, exec, post).0 && r == AfterExecuteThenPost(setup, w, decoratePost, exec, post).1
    ensures BundleTimeOf(w'.context, PreExecute) == BundleTimeOf(w.context, PreExecute)
  {
    var x := AfterTimed(setup, w, Execute, exec);
    TimedBundleTimes(setup, w, Execute, exec, x.0, x.1);
    if x.1.Ok? {
      var q := AfterPrePost(setup, x.0, PostExecute, decoratePost, post);
      PrePostBundleTimes(setup, x.0, PostExecute, decoratePost, post, q.0, q.1);
    }
  }

  /**
    The bundle times the timed `execute` and then `post_execute` leave: a
    timed `post_execute` that returned records its elapsed time less its
    per-item times.
   */
  lemma ThenPostBundleTimes(setup: Setup, w: Snapshot, decoratePost: bool, exec: StageBody, post: StageBody, w': Snapshot, r: Result<Value, Exception>)
    requires w' == AfterExecuteThenPost(setup, w, decoratePost, exec, post).0 && r == AfterExecuteThenPost(setup, w, decoratePost, exec, post).1
    ensures r.Ok? && decoratePost && !post.timingFault ==>
      BundleTimeOf(w'.context, PostExecute) == Some(post.elapsed - Sum(PerTaskOf(w'.context, PostExecute)))
  {
    var x := AfterTimed(setup, w, Execute, exec);
    TimedBundleTimes(setup, w, Execute, exec, x.0, x.1);
    if x.1.Ok? {
      TimedEffects(setup, w, Execute, exec, x.0, x.1);
      assert !IsEmpty(x.0.context);
      var q := AfterPrePost(setup, x.0, PostExecute, decoratePost, post);
      PrePostTimes(setup, x.0, PostExecute, decoratePost, post, q.0, q.1);
    }
  }

  /**
    The bundle time of the timed `execute`: when it and then `post_execute`
    returned, its elapsed time less its per-item times.
   */
  lemma ThenPostExecBundleTime(setup: Setup, w: Snapshot, decoratePost: bool, exec: StageBody, post: StageBody, w': Snapshot, r: Result<Value, Exception>)
    requires w' == AfterExecuteThenPost(setup, w, decoratePost, exec, post).0 && r == AfterExecuteThenPost(setup, w, decoratePost, exec, post).1
    ensures r.Ok? && !exec.timingFault ==>
      BundleTimeOf(w'.context, Execute) == Some(exec.elapsed - Sum(PerTaskOf(w'.context, Execute)))
  {
    var x := AfterTimed(setup, w, Execute, exec);
    if x.1.Ok? {
      TimedBundleTimes(setup, w, Execute, exec, x.0, x.1);
      var q := AfterPrePost(setup, x.0, PostExecute, decoratePost, post);
      PrePostKeepsOther(setup, x.0, PostExecute, decoratePost, post, q.0, q.1, Execute);
    }
  }

  /**
    The timed `execute` and then `post_execute` create the context, and its
    rows, exactly when `execute` iterates, or `execute` returns and
    `post_execute` iterates, before the context has work items.
   */
  lemma ThenPostWork(setup: Setup, w: Snapshot, decoratePost: bool, exec: StageBody, post: StageBody, w': Snapshot, r: Result<Value, Exception>)
    requires w' == AfterExecuteThenPost(setup, w, decoratePost, exec, post).0 && r == AfterExecuteThenPost(setup, w, decoratePost, exec, post).1
    ensures WorkOf(w'.context) ==
      if w.context.iterable.None? && (Iterates(exec) || (exec.outcome.Ok? && Iterates(post))) && CanCreate(setup)
      then WorkOf(CreatedContext(setup, w.context, w.store))
      else WorkOf(w.context)
    ensures w'.store ==
      if w.context.iterable.None? && (Iterates(exec) || (exec.outcome.Ok? && Iterates(post))) then AfterCreation(setup, w.store)
      else w.store
  {
    var x := AfterTimed(setup, w, Execute, exec);
    TimedEffects(setup, w, Execute, exec, x.0, x.1);
    TimedTimes(setup, w, Execute, exec, x.0, x.1);
    TimedWork(setup, w, Execute, exec, x.0, x.1);
    if x.1.Ok? {
      assert !IsEmpty(x.0.context);
      var q := AfterPrePost(setup, x.0, PostExecute, decoratePost, post);
      PrePostWork(setup, x.0, PostExecute, decoratePost, post, q.0, q.1);
    }
  }

  /**
    `decorate_execute`: undecorated, the `execute` body alone; decorated,
    `pre_execute`, `execute` and `post_execute` in that order, stopping at the
    first exception, with `execute`'s value returned and stored and, when all
    three are timed, the total as the sum of their elapsed times.
   */
  lemma ExecuteEffects(setup: Setup, w: Snapshot, toggles: Toggles, pre: StageBody, exec: StageBody, post: StageBody,
                       w': Snapshot, r: Result<Value, Exception>)
    requires w' == AfterDecorateExecute(setup, w, toggles, pre, exec, post).0 && r == AfterDecorateExecute(setup, w, toggles, pre, exec, post).1
    ensures r.Ok? ==> r == Raised(exec.outcome)
    ensures !toggles.execute ==> w'.trace == w.trace + [Execute] && w'.log == w.log && w'.context.results == w.context.results
    ensures toggles.execute && exec.outcome.Err? ==> r.Err?
  {
    if !toggles.execute {
      BodyEffects(setup, w, Execute, exec, w', r);
    } else {
      var p := AfterPrePost(setup, w, PreExecute, toggles.pre, pre);
      PrePostEffects(setup, w, PreExecute, toggles.pre, pre, p.0, p.1);
      if p.1.Ok? {
        ThenPostEffects(setup, p.0, toggles.post, exec, post, w', r);
      }
    }
  }

  /**
    The stages the decorated `execute` enters, in order: a prefix of
    pre, execute, post, all three when it returns, and never all three when
    the work raised.
   */
  lemma ExecuteTrace(setup: Setup, w: Snapshot, toggles: Toggles, pre: StageBody, exec: StageBody, post: StageBody,
                     w': Snapshot, r: Result<Value, Exception>)
    requires w' == AfterDecorateExecute(setup, w, toggles, pre, exec, post).0 && r == AfterDecorateExecute(setup, w, toggles, pre, exec, post).1
    ensures |w.trace| <= |w'.trace| <= |w.trace| + 3
    ensures toggles.execute ==> w'.trace == w.trace + StageOrder[..|w'.trace| - |w.trace|]
    ensures toggles.execute && r.Ok? ==> w'.trace == w.trace + StageOrder
    ensures toggles.execute && exec.outcome.Err? ==> w'.trace != w.trace + StageOrder
  {
    if !toggles.execute {
      BodyEffects(setup, w, Execute, exec, w', r);
    } else {
      var p := AfterPrePost(setup, w, PreExecute, toggles.pre, pre);
      PrePostRecords(setup, w, PreExecute, toggles.pre, pre, p.0, p.1);
      if p.1.Ok? {
        ThenPostEffects(setup, p.0, toggles.post, exec, post, w', r);
      }
    }
  }

  /**
    What the decorated `execute` stores when it returns: every stage returned,
    and each timed stage's value is stored under the stage.
   */
  lemma ExecuteResults(setup: Setup, w: Snapshot, toggles: Toggles, pre: StageBody, exec: StageBody, post: StageBody,
                       w': Snapshot, r: Result<Value, Exception>)
    requires w' == AfterDecorateExecute(setup, w, toggles, pre, exec, post).0 && r == AfterDecorateExecute(setup, w, toggles, pre, exec, post).1
    ensures toggles.execute && r.Ok? ==> pre.outcome.Ok? && exec.outcome.Ok? && post.outcome.Ok?
    ensures toggles.execute && r.Ok? ==>
      var afterPre := if toggles.pre then w.context.results[PreExecute := pre.outcome.value] else w.context.results;
      var afterExec := afterPre[Execute := exec.outcome.value];
      w'.context.results == if toggles.post then afterExec[PostExecute := post.outcome.value] else afterExec
  {    if toggles.execute {
      var p := AfterPrePost(setup, w, PreExecute, toggles.pre, pre);
      PrePostEffects(setup, w, PreExecute, toggles.pre, pre, p.0, p.1);
      PrePostRecords(setup, w, PreExecute, toggles.pre, pre, p.0, p.1);
      if p.1.Ok? {
        ThenPostResults(setup, p.0, toggles.post, exec, post, w', r);
      }
    }
  }

  /** When the decorated `execute` returns with all three stages timed without a fault, the total is the sum of their elapsed times. */
  lemma ExecuteTotal(setup: Setup, w: Snapshot, toggles: Toggles, pre: StageBody, exec: StageBody, post: StageBody,
                     w': Snapshot, r: Result<Value, Exception>)
    requires w' == AfterDecorateExecute(setup, w, toggles, pre, exec, post).0 && r == AfterDecorateExecute(setup, w, toggles, pre, exec, post).1
    ensures toggles.execute && toggles.pre && toggles.post && r.Ok? &&
            !pre.timingFault && !exec.timingFault && !post.timingFault ==>
      TimingOf(w'.context).total == Some(pre.elapsed + exec.elapsed + post.elapsed)
  {    if toggles.execute {
      var p := AfterPrePost(setup, w, PreExecute, toggles.pre, pre);
      PrePostEffects(setup, w, PreExecute, toggles.pre, pre, p.0, p.1);
      PrePostRecords(setup, w, PreExecute, toggles.pre, pre, p.0, p.1);
      if p.1.Ok? {
        ThenPostTimings(setup, p.0, toggles.post, exec, post, w', r);
        StageTimeSet(TimingOf(p.0.context), TimingOf(w.context).stageTime, PreExecute, pre.elapsed);
      }
    }
  }

  /** `decorate_execute` creates the context, and its rows, exactly when one of the stages it runs tries to. */
  lemma ExecuteWork(setup: Setup, w: Snapshot, toggles: Toggles, pre: StageBody, exec: StageBody, post: StageBody,
                    w': Snapshot, r: Result<Value, Exception>)
    requires w' == AfterDecorateExecute(setup, w, toggles, pre, exec, post).0 && r == AfterDecorateExecute(setup, w, toggles, pre, exec, post).1
    ensures WorkOf(w'.context) ==
      if ExecuteOpens(w.context, toggles, pre, exec, post) && CanCreate(setup)
      then WorkOf(CreatedContext(setup, w.context, w.store))
      else WorkOf(w.context)
    ensures w'.store == if ExecuteOpens(w.context, toggles, pre, exec, post) then AfterCreation(setup, w.store) else w.store
  {
    if !toggles.execute {
      BodyEffects(setup, w, Execute, exec, w', r);
    } else {
      var p := AfterPrePost(setup, w, PreExecute, toggles.pre, pre);
      PrePostEffects(setup, w, PreExecute, toggles.pre, pre, p.0, p.1);
      PrePostTimes(setup, w, PreExecute, toggles.pre, pre, p.0, p.1);
      PrePostWork(setup, w, PreExecute, toggles.pre, pre, p.0, p.1);
      if p.1.Ok? {
        ThenPostWork(setup, p.0, toggles.post, exec, post, w', r);
      }
    }
  }

  /**
    The per-item lists `decorate_execute` leaves for `execute`: it gains the
    times the body recorded when the body iterates and is reached, and is
    kept when the body does not iterate; undecorated, every other list is
    kept.
   */
  lemma ExecuteTimes(setup: Setup, w: Snapshot, toggles: Toggles, pre: StageBody, exec: StageBody, post: StageBody,
                     w': Snapshot, r: Result<Value, Exception>)
    requires w' == AfterDecorateExecute(setup, w, toggles, pre, exec, post).0 && r == AfterDecorateExecute(setup, w, toggles, pre, exec, post).1
    ensures !toggles.execute ==> forall s :: s != Execute ==> PerTaskOf(w'.context, s) == PerTaskOf(w.context, s)
    ensures Reaches(setup, w.context, exec) && (!toggles.execute || r.Ok?) ==>
      && w'.context.iterable.Some?
      && PerTaskOf(w'.context, Execute) == Accumulate(PerTaskOf(w.context, Execute), Recorded(exec.iterates.value, w'.context.iterable.value))
    ensures !Iterates(exec) ==> PerTaskOf(w'.context, Execute) == PerTaskOf(w.context, Execute)
  {
    if !toggles.execute {
      BodyEffects(setup, w, Execute, exec, w', r);
    } else {
      var p := AfterPrePost(setup, w, PreExecute, toggles.pre, pre);
      PrePostTimes(setup, w, PreExecute, toggles.pre, pre, p.0, p.1);
      if p.1.Ok? {
        ThenPostTimes(setup, p.0, toggles.post, exec, post, w', r);
      }
    }
  }

  /**
    The per-item list `decorate_execute` leaves for `pre_execute`: it gains
    the times the body recorded when the body iterates and `execute`
    returns, and is kept when the body does not iterate.
   */
  lemma ExecutePreTimes(setup: Setup, w: Snapshot, toggles: Toggles, pre: StageBody, exec: StageBody, post: StageBody,
                        w': Snapshot, r: Result<Value, Exception>)
    requires w' == AfterDecorateExecute(setup, w, toggles, pre, exec, post).0 && r == AfterDecorateExecute(setup, w, toggles, pre, exec, post).1
    ensures !Iterates(pre) ==> PerTaskOf(w'.context, PreExecute) == PerTaskOf(w.context, PreExecute)
    ensures toggles.execute && r.Ok? && Iterates(pre) ==>
      && w'.context.iterable.Some?
      && PerTaskOf(w'.context, PreExecute) == Accumulate(PerTaskOf(w.context, PreExecute), Recorded(pre.iterates.value, w'.context.iterable.value))
  {
    if !toggles.execute {
      BodyEffects(setup, w, Execute, exec, w', r);
    } else {
      var p := AfterPrePost(setup, w, PreExecute, toggles.pre, pre);
      PrePostEffects(setup, w, PreExecute, toggles.pre, pre, p.0, p.1);
      PrePostTimes(setup, w, PreExecute, toggles.pre, pre, p.0, p.1);
      if p.1.Ok? {
        ThenPostKeepsPre(setup, p.0, toggles.post, exec, post, w', r);
        ThenPostTimes(setup, p.0, toggles.post, exec, post, w', r);
      }
    }
  }

  /**
    The per-item list `decorate_execute` leaves for `post_execute`: it gains
    the times the body recorded when the body iterates and `execute`
    returns, and is kept when the body does not iterate.
   */
  lemma ExecutePostTimes(setup: Setup, w: Snapshot, toggles: Toggles, pre: StageBody, exec: StageBody, post: StageBody,
                         w': Snapshot, r: Result<Value, Exception>)
    requires w' == AfterDecorateExecute(setup, w, toggles, pre, exec, post).0 && r == AfterDecorateExecute(setup, w, toggles, pre, exec, post).1
    ensures !Iterates(post) ==> PerTaskOf(w'.context, PostExecute) == PerTaskOf(w.context, PostExecute)
    ensures toggles.execute && r.Ok? && Iterates(post) ==>
      && w'.context.iterable.Some?
      && PerTaskOf(w'.context, PostExecute) == Accumulate(PerTaskOf(w.context, PostExecute), Recorded(post.iterates.value, w'.context.iterable.value))
  {
    if !toggles.execute {
      BodyEffects(setup, w, Execute, exec, w', r);
    } else {
      var p := AfterPrePost(setup, w, PreExecute, toggles.pre, pre);
      PrePostTimes(setup, w, PreExecute, toggles.pre, pre, p.0, p.1);
      if p.1.Ok? {
        ThenPostTimes(setup, p.0, toggles.post, exec, post, w', r);
      }
    }
  }

  /**
    The bundle times `decorate_execute` leaves: undecorated it records none;
    decorated, the timed `execute` and a timed `post_execute` that returned
    record their elapsed times less their per-item times.
   */
  lemma ExecuteBundleTimes(setup: Setup, w: Snapshot, toggles: Toggles, pre: StageBody, exec: StageBody, post: StageBody,
                           w': Snapshot, r: Result<Value, Exception>)
    requires w' == AfterDecorateExecute(setup, w, toggles, pre, exec, post).0 && r == AfterDecorateExecute(setup, w, toggles, pre, exec, post).1
    ensures !toggles.execute ==> TimingOf(w'.context).bundleTime == TimingOf(w.context).bundleTime
    ensures toggles.execute && r.Ok? && !exec.timingFault ==>
      BundleTimeOf(w'.context, Execute) == Some(exec.elapsed - Sum(PerTaskOf(w'.context, Execute)))
    ensures toggles.execute && r.Ok? && toggles.post && !post.timingFault ==>
      BundleTimeOf(w'.context, PostExecute) == Some(post.elapsed - Sum(PerTaskOf(w'.context, PostExecute)))
  {
    if !toggles.execute {
      BodyEffects(setup, w, Execute, exec, w', r);
    } else {
      var p := AfterPrePost(setup, w, PreExecute, toggles.pre, pre);
      if p.1.Ok? {
        ThenPostExecBundleTime(setup, p.0, toggles.post, exec, post, w', r);
        ThenPostBundleTimes(setup, p.0, toggles.post, exec, post, w', r);
      }
    }
  }

  /** A timed `pre_execute` records its elapsed time less its per-item times as its bundle time, when the decorated `execute` returns. */
  lemma ExecutePreBundleTime(setup: Setup, w: Snapshot, toggles: Toggles, pre: StageBody, exec: StageBody, post: StageBody,
                             w': Snapshot, r: Result<Value, Exception>)
    requires w' == AfterDecorateExecute(setup, w, toggles, pre, exec, post).0 && r == AfterDecorateExecute(setup, w, toggles, pre, exec, post).1
    ensures toggles.execute && r.Ok? && toggles.pre && !pre.timingFault ==>
      BundleTimeOf(w'.context, PreExecute) == Some(pre.elapsed - Sum(PerTaskOf(w'.context, PreExecute)))
  {
    if toggles.execute {
      var p := AfterPrePost(setup, w, PreExecute, toggles.pre, pre);
      if p.1.Ok? {
        PrePostEffects(setup, w, PreExecute, toggles.pre, pre, p.0, p.1);
        PrePostBundleTimes(setup, w, PreExecute, toggles.pre, pre, p.0, p.1);
        ThenPostKeepsPre(setup, p.0, toggles.post, exec, post, w', r);
        ThenPostKeepsPreBundle(setup, p.0, toggles.post, exec, post, w', r);
      }
    }
  }

  // ---------------------------------------------------------------------------
  // The task instance.

  class TaskInstance {
    /** `f"{module.__name__}.{cls.__name__}"` */
    const className: string
    /** The software version stamped on every Task row. */
    const version: string
    const bundleSize: nat
    /** The resolved parameters, `self._parameters`. */
    const plan: seq<(string, Resolved)>
    /** What the data-product resolver returns for this instance's input data products. */
    const resolvedInputs: Result<Value, PyError>
    var context: Context
    /** The warnings and exceptions logged so far. */
    var log: seq<LogEntry>
    /** The stage bodies run so far, in order. */
    var trace: seq<Stage>

    constructor (className: string, version: string, resolution: Resolution,
                 resolvedInputs: Result<Value, PyError>, context: Context)
      ensures this.className == className && this.version == version
      ensures bundleSize == resolution.bundleSize && plan == resolution.parameters
      ensures this.resolvedInputs == resolvedInputs && this.context == context
      ensures log == [] && trace == []
    {
      this.className := className;
      this.version := version;
      bundleSize := resolution.bundleSize;
      plan := resolution.parameters;
      this.resolvedInputs := resolvedInputs;
      this.context := context;
      log := [];
      trace := [];
    }

    /**
      The loop of `get_or_create_context`: slices sub-unit i and creates its
      Task row, for i from 0 up to the bundle size, and stops at the first
      sub-unit whose slicing raises, keeping the rows already created.
     */
    method CreateUnitTasks(store: TaskStore) returns (tasks: seq<nat>, items: seq<Item>, failure: Option<PyError>)
      requires store.Valid()
      modifies store
      ensures store.Valid()
      ensures failure.None? ==> Units(plan, bundleSize).Ok? && |tasks| == bundleSize
      ensures failure.Some? ==> Units(plan, bundleSize) == Err((|tasks|, failure.value))
      ensures Units(plan, |tasks|).Ok?
      ensures tasks == Range(old(store.nextTaskId), |tasks|)
      ensures items == MakeItems(old(store.nextTaskId), Units(plan, |tasks|).value)
      ensures store.nextTaskId == old(store.nextTaskId) + |tasks|
      ensures store.tasks == AddTasks(old(store.tasks), old(store.nextTaskId), className, version, Units(plan, |tasks|).value)
      ensures store.bundles == old(store.bundles) && store.taskBundles == old(store.taskBundles)
      ensures store.statuses == old(store.statuses) && store.nextBundleId == old(store.nextBundleId)
    {
      ghost var units;
      tasks, items, failure, units := CreateUnitTasksFrom(store);
    }

    /** The loop of `CreateUnitTasks`, with the sub-units it sliced as a ghost result. */
    method CreateUnitTasksFrom(store: TaskStore) returns (tasks: seq<nat>, items: seq<Item>, failure: Option<PyError>, ghost units: seq<Unit>)
      requires store.Valid()
      modifies store
      ensures store.Valid()
      ensures Units(plan, |tasks|) == Ok(units)
      ensures failure.None? ==> |tasks| == bundleSize
      ensures failure.Some? ==> Units(plan, bundleSize) == Err((|tasks|, failure.value))
      ensures tasks == Range(old(store.nextTaskId), |tasks|) && items == MakeItems(old(store.nextTaskId), units)
      ensures store.nextTaskId == old(store.nextTaskId) + |tasks|
      ensures store.tasks == AddTasks(old(store.tasks), old(store.nextTaskId), className, version, units)
      ensures store.bundles == old(store.bundles) && store.taskBundles == old(store.taskBundles)
      ensures store.statuses == old(store.statuses) && store.nextBundleId == old(store.nextBundleId)
    {
      var first := store.nextTaskId;
      units := [];
      tasks, items := [], [];
      for i := 0 to bundleSize
        invariant store.Valid()
        invariant Units(plan, i) == Ok(units)
        invariant |tasks| == i && tasks == Range(first, i) && items == MakeItems(first, units)
        invariant store.nextTaskId == first + i
        invariant store.tasks == AddTasks(old(store.tasks), first, className, version, units)
        invariant store.bundles == old(store.bundles) && store.taskBundles == old(store.taskBundles)
        invariant store.statuses == old(store.statuses) && store.nextBundleId == old(store.nextBundleId)
      {
        var u := SliceUnit(plan, i);
        UnitsStep(plan, i, units);
        if u.Err? {
          UnitsStuck(plan, i + 1, bundleSize);
          return tasks, items, Some(u.error), units;
        }
        var t := CreateUnitTask(store, old(store.tasks), first, units, u.value);
        units := units + [u.value];
        tasks := tasks + [t];
        items := items + [Item(t, u.value)];
      }
      failure := None;
    }

    /** `Task.create` for one sliced sub-unit, the next row after those of `units`. */
    method CreateUnitTask(store: TaskStore, ghost tasks0: map<nat, TaskRow>, first: nat, ghost units: seq<Unit>, u: Unit) returns (t: nat)
      requires store.Valid() && store.nextTaskId == first + |units|
      requires store.tasks == AddTasks(tasks0, first, className, version, units)
      modifies store
      ensures store.Valid()
      ensures t == first + |units| && store.nextTaskId == t + 1
      ensures store.tasks == AddTasks(tasks0, first, className, version, units + [u])
      ensures Range(first, |units| + 1) == Range(first, |units|) + [t]
      ensures MakeItems(first, units + [u]) == MakeItems(first, units) + [Item(t, u)]
      ensures store.bundles == old(store.bundles) && store.taskBundles == old(store.taskBundles)
      ensures store.statuses == old(store.statuses) && store.nextBundleId == old(store.nextBundleId)
    {
      t := store.CreateTask(className, u, version);
      TasksStep(tasks0, first, className, version, units, u);
    }

    /**
      `get_or_create_context()`: a context that already holds work items is
      returned as it is; otherwise one Task row is created per sub-unit, a
      Bundle joined to all of them when there is more than one, and the
      context gains `input_data_products`, `tasks`, `bundle` and `iterable`.
     */
    method GetOrCreateContext(store: TaskStore) returns (r: Result<Context, PyError>)
      requires store.Valid()
      modifies this`context, store
      ensures store.Valid()
      ensures old(context).iterable.Some? ==>
        && r == Ok(old(context)) && context == old(context)
        && store.tasks == old(store.tasks) && store.bundles == old(store.bundles)
        && store.taskBundles == old(store.taskBundles) && store.nextTaskId == old(store.nextTaskId)
      ensures old(context).iterable.None? ==>
        (r.Ok? <==> resolvedInputs.Ok? && Units(plan, bundleSize).Ok?)
      ensures r.Err? ==> context == old(context) && store.bundles == old(store.bundles) && store.taskBundles == old(store.taskBundles)
      ensures r.Err? && resolvedInputs.Err? ==> r.error == resolvedInputs.error && store.tasks == old(store.tasks)
      ensures r.Err? && resolvedInputs.Ok? ==>
        var failure := Units(plan, bundleSize).error;
        && Units(plan, bundleSize).Err? && r.error == failure.1
        && Units(plan, failure.0).Ok?
        && store.nextTaskId == old(store.nextTaskId) + failure.0
        && store.tasks == AddTasks(old(store.tasks), old(store.nextTaskId), className, version, Units(plan, failure.0).value)
      ensures r.Ok? && old(context).iterable.None? ==>
        var first := old(store.nextTaskId);
        var units := Units(plan, bundleSize).value;
        && store.nextTaskId == first + bundleSize
        && store.tasks == AddTasks(old(store.tasks), first, className, version, units)
        && context.tasks == Some(Range(first, bundleSize))
        && context.iterable == Some(MakeItems(first, units))
        && context.inputs == Some(resolvedInputs.value)
        && context.bundle.Some? && (context.bundle.value.Some? <==> bundleSize > 1)
        && (bundleSize > 1 ==>
             var b := context.bundle.value.value;
             && b == old(store.nextBundleId)
             && store.bundles == old(store.bundles)[b := BundleRow(CreatedStatus)]
             && store.taskBundles == old(store.taskBundles) + ChunkLinks(Range(first, bundleSize), b))
        && (bundleSize <= 1 ==> store.bundles == old(store.bundles) && store.taskBundles == old(store.taskBundles))
        && context.timing == old(context).timing && context.results == old(context).results
        && r == Ok(Context(None, context.inputs, context.tasks, context.bundle, context.iterable, map[]))
      ensures r.Ok? && old(context).iterable.None? ==> context == CreatedContext(Config(), old(context), old(store.State()))
      ensures store.State() == if old(context).iterable.None? then AfterCreation(Config(), old(store.State())) else old(store.State())
      ensures store.statuses == old(store.statuses)
    {
      if context.iterable.Some? {
        return Ok(context);
      }
      ghost var s0 := store.State();
      if resolvedInputs.Err? {
        assert store.State() == AfterCreation(Config(), s0);
        return Err(resolvedInputs.error);
      }
      var tasks, items, failure := CreateUnitTasks(store);
      if failure.Some? {
        assert store.State() == AfterCreation(Config(), s0);
        return Err(failure.value);
      }
      var bundle: Option<nat> := None;
      if bundleSize > 1 {
        var b := store.CreateBundle();
        store.LinkAll(tasks, b);
        bundle := Some(b);
      }
      assert store.State() == AfterCreation(Config(), s0);
      context := context.(inputs := Some(resolvedInputs.value), tasks := Some(tasks), bundle := Some(bundle), iterable := Some(items));
      r := Ok(Context(None, context.inputs, context.tasks, context.bundle, context.iterable, map[]));
    }

    /** What this instance was created with. */
    function Config(): Setup {
      Setup(className, version, bundleSize, plan, resolvedInputs)
    }

    /** The instance's context, log and stage trace, with the tables of `store`. */
    function Current(store: TaskStore): Snapshot
      reads this, store
    {
      Snapshot(context, log, trace, store.State())
    }

    /**
      `iterable(stage)`: a generator, so nothing happens until the caller
      first asks for an item. Then it warns when no stage is known, creates
      the stage's per-item time list, creates the context first when it has
      no work items, yields the items, and adds the time the caller spent on
      item i to slot i of the list (appending when the list is too short) when
      it resumes after yielding item i. `stage` is the stage found on the
      call stack, if any.
     */
    method Iterate(store: TaskStore, stage: Option<Stage>, consumer: Consumer) returns (r: Result<seq<Item>, PyError>)
      requires store.Valid()
      modifies this`context, this`log, store
      ensures store.Valid()
      ensures Current(store) == AfterIterate(Config(), old(Current(store)), stage, consumer).0
      ensures r == AfterIterate(Config(), old(Current(store)), stage, consumer).1
    {
      if !Advanced(consumer) {
        return Ok([]);
      }
      if stage.None? {
        log := log + [CannotInferStage];
      } else {
        context := WithPerTask(context, stage.value, PerTaskOf(context, stage.value));
      }
      var e := OpenIterable(store);
      if e.Some? {
        return Err(e.value);
      }
      var consumed := RecordConsumed(stage, consumer);
      r := Ok(consumed);
    }

    /**
      `if "iterable" not in self.context: self.get_or_create_context()`,
      with the exception that creation raises, if any.
     */
    method OpenIterable(store: TaskStore) returns (e: Option<PyError>)
      requires store.Valid()
      modifies this`context, store
      ensures store.Valid()
      ensures Current(store) == AfterOpen(Config(), old(Current(store))).0
      ensures e == AfterOpen(Config(), old(Current(store))).1
    {
      e := None;
      if context.iterable.None? {
        var c := GetOrCreateContext(store);
        if c.Err? {
          e := Some(c.error);
        }
      }
    }

    /**
      The work items the consumer took from the context's iterable, with the
      times it recorded for them added to `stage`'s per-task times.
     */
    method RecordConsumed(stage: Option<Stage>, consumer: Consumer) returns (consumed: seq<Item>)
      requires context.iterable.Some?
      modifies this`context
      ensures var all := old(context).iterable.value;
        && |consumed| == Consumed(consumer.times, all) && consumed == all[..|consumed|]
      ensures stage.None? ==> context == old(context)
      ensures stage.Some? ==>
        var recorded := Recorded(consumer, old(context).iterable.value);
        && context == WithPerTask(old(context), stage.value, Accumulate(PerTaskOf(old(context), stage.value), recorded))
        && Sum(PerTaskOf(context, stage.value)) == Sum(PerTaskOf(old(context), stage.value)) + Sum(recorded)
    {
      var all := context.iterable.value;
      var recorded := Recorded(consumer, all);
      if stage.Some? {
        var per0 := PerTaskOf(context, stage.value);
        RecordItemTimes(stage.value, recorded);
        SumAccumulate(per0, recorded);
      }
      consumed := all[..Consumed(consumer.times, all)];
    }

    /**
      The timing half of the `iterable` loop: after item i has been consumed,
      its time is added to slot i of the stage's per-item list, or appended
      when the list is too short.
     */
    method RecordItemTimes(stage: Stage, times: seq<real>)
      modifies this`context
      ensures context == WithPerTask(old(context), stage, Accumulate(PerTaskOf(old(context), stage), times))
    {
      var per0 := PerTaskOf(context, stage);
      var c0 := context;
      var per := per0;
      context := WithPerTask(c0, stage, per);
      for i := 0 to |times|
        invariant per == Accumulate(per0, times[..i])
        invariant context == WithPerTask(c0, stage, per)
      {
        per := AccumulateStep(per, i, times[i]);
        context := WithPerTask(c0, stage, per);
        assert times[..i + 1][..i] == times[..i];
      }
      assert times[..|times|] == times;
    }

    /**
      `TaskStageTimer.update_timing(elapsed)`: records the stage time, its
      overhead beyond the per-item times, and the new total.
     */
    method UpdateTiming(stage: Stage, elapsed: real)
      modifies this`context
      ensures context == old(context).(timing := Some(TimingAfter(TimingOf(old(context)), stage, elapsed)))
      ensures TimingOf(context).bundleTime[stage] + PerTaskSum(TimingOf(old(context)), stage) == elapsed
    {
      context := context.(timing := Some(TimingAfter(TimingOf(context), stage, elapsed)));
    }

    /**
      `TaskStageTimer.__exit__`: updates the timing, logging instead of raising
      when that fails (after the timing entry has been created), and logs the
      exception leaving the stage, which then goes on propagating.
     */
    method ExitStage(stage: Stage, body: StageBody, raised: Option<Exception>)
      modifies this`context, this`log
      ensures context == ExitContext(old(context), stage, body)
      ensures log == old(log) + TimerLog(stage, body.timingFault, raised)
    {
      if body.timingFault {
        context := context.(timing := Some(TimingOf(context)));
        log := log + [TimingFailed(stage)];
      } else {
        UpdateTiming(stage, body.elapsed);
      }
      if raised.Some? {
        log := log + [StageFailed(stage, raised.value)];
      }
    }

    /**
      Runs the undecorated body of a stage: it iterates over the work items
      when it does so (an exception creating the context leaves the body),
      then returns its value or raises.
     */
    method RunBody(stage: Stage, body: StageBody, store: TaskStore) returns (r: Result<Value, Exception>)
      requires store.Valid()
      modifies this`context, this`log, this`trace, store
      ensures store.Valid()
      ensures Current(store) == AfterBody(Config(), old(Current(store)), stage, body).0
      ensures r == AfterBody(Config(), old(Current(store)), stage, body).1
    {
      trace := trace + [stage];
      if body.iterates.Some? {
        var it := Iterate(store, Some(stage), body.iterates.value);
        if it.Err? {
          return Err(ContextException(it.error));
        }
      }
      r := Raised(body.outcome);
    }

    /**
      `decorate_pre_post_execute`: an undecorated call runs the body alone;
      a decorated one first creates the context when it is empty, runs the
      body under the stage timer and stores the returned value in the
      context under the stage's name.
     */
    method RunPrePost(stage: Stage, decorate: bool, body: StageBody, store: TaskStore) returns (r: Result<Value, Exception>)
      requires store.Valid()
      modifies this`context, this`log, this`trace, store
      ensures store.Valid()
      ensures Current(store) == AfterPrePost(Config(), old(Current(store)), stage, decorate, body).0
      ensures r == AfterPrePost(Config(), old(Current(store)), stage, decorate, body).1
    {
      if !decorate {
        r := RunBody(stage, body, store);
        return;
      }
      var e := CreateIfEmpty(store);
      if e.Some? {
        return Err(ContextException(e.value));
      }
      r := TimedStage(stage, body, store);
    }

    /**
      The first step of a decorated pre- or post-execute stage: an empty
      context is created, any other one is kept.
     */
    method CreateIfEmpty(store: TaskStore) returns (e: Option<PyError>)
      requires store.Valid()
      modifies this`context, store
      ensures store.Valid()
      ensures Current(store) == AfterCreateIfEmpty(Config(), old(Current(store))).0
      ensures e == AfterCreateIfEmpty(Config(), old(Current(store))).1
    {
      e := None;
      if IsEmpty(context) {
        var c := GetOrCreateContext(store);
        if c.Err? {
          e := Some(c.error);
        }
      }
    }

    /**
      `decorate_execute`: an undecorated call runs the `execute` body alone;
      a decorated one runs `pre_execute`, then the `execute` body under the
      stage timer (its value stored under `execute`), then `post_execute`,
      and any exception stops the sequence there.
     */
    method DecorateExecute(toggles: Toggles, pre: StageBody, exec: StageBody, post: StageBody, store: TaskStore)
      returns (r: Result<Value, Exception>)
      requires store.Valid()
      modifies this`context, this`log, this`trace, store
      ensures store.Valid()
      ensures Current(store) == AfterDecorateExecute(Config(), old(Current(store)), toggles, pre, exec, post).0
      ensures r == AfterDecorateExecute(Config(), old(Current(store)), toggles, pre, exec, post).1
    {
      if !toggles.execute {
        r := RunBody(Execute, exec, store);
        return;
      }
      r := RunPrePost(PreExecute, toggles.pre, pre, store);
      if r.Err? {
        return;
      }
      r := ExecuteThenPost(toggles.post, exec, post, store);
    }

    /**
      The second half of a decorated `execute`: the `execute` body under the
      stage timer, its value stored under `execute`, then `post_execute`
      unless `execute` raised.
     */
    method ExecuteThenPost(decoratePost: bool, exec: StageBody, post: StageBody, store: TaskStore) returns (r: Result<Value, Exception>)
      requires store.Valid()
      modifies this`context, this`log, this`trace, store
      ensures store.Valid()
      ensures Current(store) == AfterExecuteThenPost(Config(), old(Current(store)), decoratePost, exec, post).0
      ensures r == AfterExecuteThenPost(Config(), old(Current(store)), decoratePost, exec, post).1
    {
      r := TimedStage(Execute, exec, store);
      if r.Ok? {
        var q := RunPrePost(PostExecute, decoratePost, post, store);
        if q.Err? {
          r := q;
        }
      }
    }

    /**
      The timed part of a decorated stage: the body runs under the stage timer
      and the value it returns is stored in the context under the stage's
      name. (`decorate_execute` stores the value before the timer exits,
      `decorate_pre_post_execute` after it; the two orders leave the same
      state, since the timer touches only the timing and the log.)
     */
    method TimedStage(stage: Stage, body: StageBody, store: TaskStore) returns (r: Result<Value, Exception>)
      requires store.Valid()
      modifies this`context, this`log, this`trace, store
      ensures store.Valid()
      ensures Current(store) == AfterTimed(Config(), old(Current(store)), stage, body).0
      ensures r == AfterTimed(Config(), old(Current(store)), stage, body).1
    {
      r := RunBody(stage, body, store);
      ghost var b := Current(store);
      ExitStage(stage, body, ErrorOf(r));
      if r.Ok? {
        context := context.(results := context.results[stage := r.value]);
      }
      assert Current(store) == TimerExit(b, r, stage, body);
    }

    /**
      `update_status(description, items)`: looks the status up by its
      description (raising when there is none) and sets it on every row the
      items name, by default the context's tasks and bundle; returns the
      number of rows updated.
     */
    method UpdateStatus(store: TaskStore, description: string, items: Option<seq<Option<RowRef>>>) returns (r: Result<nat, PyError>)
      requires store.Valid()
      modifies store
      ensures store.Valid()
      ensures description !in old(store.statuses) <==> r == Err(DoesNotExist)
      ensures r.Err? ==> store.tasks == old(store.tasks) && store.bundles == old(store.bundles)
      ensures r.Ok? ==> old(store.StatusId(description)).Some?
      ensures r.Ok? ==>
        var targets := if items.Some? then items.value else DefaultStatusItems(context);
        var status := old(store.StatusId(description)).value;
        && r.value == CountExisting(old(store.tasks), old(store.bundles), targets)
        && store.tasks.Keys == old(store.tasks).Keys && store.bundles.Keys == old(store.bundles).Keys
        && (forall id :: id in old(store.tasks) ==>
              store.tasks[id] == if NamesTask(targets, id) then old(store.tasks)[id].(status := status) else old(store.tasks)[id])
        && (forall id :: id in old(store.bundles) ==>
              store.bundles[id] == if NamesBundle(targets, id) then BundleRow(status) else old(store.bundles)[id])
      ensures store.taskBundles == old(store.taskBundles) && store.statuses == old(store.statuses)
      ensures store.nextTaskId == old(store.nextTaskId) && store.nextBundleId == old(store.nextBundleId)
    {
      var status := store.StatusId(description);
      if status.None? {
        return Err(DoesNotExist);
      }
      var targets := if items.Some? then items.value else DefaultStatusItems(context);
      var n := SetRowsStatus(store, targets, status.value);
      r := Ok(n);
    }
  }
}
