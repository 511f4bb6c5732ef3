# Astra task core, modelled in Dafny

Astra runs analysis tasks over SDSS-V data products. This project models the
part of Astra that turns a task call into database rows and back:

- **Parameters** (`parameters.dfy`): how `ExecutableTask.parse_parameters`
  resolves keyword arguments against declared parameters (plain, bundled,
  `TupleParameter`, `DictParameter`), reports missing or unexpected keywords
  and bundled conflicts, infers the bundle size, and decides which values are
  sliced per sub-unit.
- **Executable** (`executable.dfy`): a `TaskInstance` class with the
  execution context. It models `get_or_create_context` (one `Task` row per
  sub-unit, a `Bundle` joining them), `iterable` (the work items and the
  per-item timing), `TaskStageTimer` (`__exit__`, `update_timing`), the
  decorators `decorate_pre_post_execute` and `decorate_execute`, and
  `update_status`. Each stage method states its whole new state, and what
  it returns or raises, as a specification function of the old state
  (`AfterIterate`, `AfterBody`, `AfterTimed`, `AfterPrePost`,
  `AfterExecuteThenPost`, `AfterDecorateExecute`). Lemmas about those
  functions state what each stage does to the trace, log, results, timing,
  work items and tables.
- **Tasks** (`tasks.dfy`): a `TaskStore` class holding the `Task`, `Bundle`,
  `TaskBundle` and `Status` tables, with `Bundle.split`.
- **Outputs** (`outputs.dfy`): an `OutputStore` class with
  `Task.create_or_update_outputs`. It overlays results on existing outputs,
  creates the surplus and optionally deletes the unused.
- **DataProducts** (`dataproducts.dfy`): `DataProductKeywordsField.adapt`,
  `DataProduct.adapt_and_hash_kwargs`, `DataProduct(...)` and a
  `DataProductStore` class with `DataProduct.get_or_create` over the unique
  index on (release, filetype, kwargs_hash).
- **Aspcap**, **Grids** and **Abundances** (`aspcap.dfy`, `grids.dfy`,
  `abundances.dfy`): the ASPCAP helpers:
  - `get_lsf_grid_name`, `task_id_parts` and `parse_header_path`;
  - `group_header_paths` and `yield_suitable_grids`;
  - `get_abundance_keywords`, which builds FERRE's `NTIE`, `TYPETIE`, `INDTIE`, `TTIE0` and `TTIE` keywords and the map of frozen labels.
- **Values**, **Text** and **Wrappers** (`values.dfy`, `text.dfy`,
  `wrappers.dfy`): the Python values, exception classes and string
  operations the rest relies on, and a `Result`/`Option` pair.

Python exceptions are modelled as `Err(...)` values of `Values.PyError`, in
the order the source raises them. Database tables are maps from row id to
row, and ids are handed out in increasing order. The MD5 hash of the
adapted keywords, `repr` of non-string values and the clock are function
or value parameters.

## Model

| member | source | states |
|---|---|---|
| Values.LengthOf | python/astra/base.py:232-235  | the length used for bundle sizing is `len(value)` for strings, lists and dicts and 1 for any other value |
| Values.Index | python/astra/base.py:364-365  | slicing a sub-unit succeeds exactly for a string or list whose length exceeds the index; a string gives its one-character substring, a list its element |
| Parameters.Missing | python/astra/base.py:213-242 | lists exactly the declared parameters that were not supplied and have no default, in schema order |
| Parameters.ParseParameters | python/astra/base.py:209-290 | on success there is one plan entry per declared parameter, in order: its name, declaration, bound value, default flag, length and whether it is sliced at the resolved bundle size |
| Parameters.MissingReported | python/astra/base.py:213-242 | the call fails with the missing-parameters error exactly when some parameter without a default is absent, and the error names all of them |
| Parameters.UnexpectedReported | python/astra/base.py:243-246 | with nothing missing, the call fails with the unexpected-keywords error exactly when an undeclared keyword is supplied, and it names every undeclared keyword |
| Parameters.BundledConflictReported | python/astra/base.py:248-261 | once the keywords are accepted, the call fails with the bundled-conflict error exactly when some bundled parameter that is not a Tuple- or DictParameter holds a non-string list or dict of length greater than 1 |
| Parameters.FirstBundledConflictReported | python/astra/base.py:248-261 | the bundled-conflict error names the first such parameter in schema order (`inspect.getmembers` sorts by attribute name), with its length |
| Parameters.BundleSizeRule | python/astra/base.py:267-278  | the bundle size is 1 when no relevant length differs from 1; it is the one length other than 1 when there is exactly one such length; it is an error exactly when two different lengths other than 1 occur |
| Parameters.BundleSizeInferred | python/astra/base.py:248-278  | the same rule stated on the declared parameters and keywords: only supplied, non-bundled, non-container values decide the bundle size, and disagreement is the ambiguous-bundle-size error |
| Parameters.BoundValues | python/astra/base.py:216-237  | each plan entry carries the supplied value, or the default when none was supplied, and that value's length |
| Parameters.IndexedRule | python/astra/base.py:280-290 | a value is sliced per sub-unit exactly when the bundle size exceeds 1, its length equals the bundle size, and it is supplied, not bundled and not a Tuple- or DictParameter; a bundle size of 1 slices nothing |
| Tasks.TaskStore.Split | python/astra/database/astradb.py:548-567 | `N < 2` raises ValueError and changes nothing; otherwise it creates N fresh bundles with consecutive ids and links the tasks of the old bundle in chunks of `len // N + 1`, chunk i to bundle i; the Task table is unchanged |
| Tasks.SplitCoversAll | python/astra/database/astradb.py:553-566  | the N chunks, concatenated, are exactly the bundle's tasks in order, and every chunk past the end is empty |
| Tasks.SplitSizeCovers | python/astra/database/astradb.py:553-555  | N chunks of the split size always hold more than all the tasks |
| Tasks.SplitLinksTasks | python/astra/database/astradb.py:556-566 | the links made by a split pair the tasks of the chunks, in order and one link each, with the new bundles: the task at position j goes to bundle `first + j / size` |
| Tasks.TaskStore.SetTaskStatus | python/astra/base.py:419-427  | updates the status of an existing task row, counts 1, and changes nothing else; a missing row counts 0 |
| Tasks.TaskStore.SetBundleStatus | python/astra/base.py:419-427  | the same for a bundle row |
| Tasks.TaskStore.StatusId | python/astra/base.py:406 | finds the first status row with the given description, or none when there is none |
| Tasks.TasksOfMembers | python/astra/database/astradb.py:455-457 | a bundle's tasks are exactly the tasks linked to it |
| Executable.TimingAfterSpec | python/astra/base.py:34-44 | after `update_timing` the stage time is the elapsed time, the stage's bundle overhead is the elapsed time less the sum of its per-item times, other stages and every per-item list are kept, and the total is the sum of the three stage times |
| Executable.TimingTotalAfterAll | python/astra/base.py:34-44 | after the three stages are timed, the total is the sum of their elapsed times, whatever was recorded before |
| Executable.OverheadPlusItems | python/astra/base.py:34-44 | for a stage whose items were timed into a fresh list, overhead plus per-item times equals the stage time |
| Executable.SumAccumulate | python/astra/base.py:328-338  | accumulating per-item times into the per-task list adds exactly their sum to the list's sum |
| Executable.SlicesUnlessDict | python/astra/base.py:356-365  | for a resolved plan, every sub-unit below the bundle size slices without error unless a sliced value is a dict; the i-th sub-unit takes element i of each sliced list and character i of each sliced string |
| Executable.UnitsFailure | python/astra/base.py:356-373  | all sub-units are built exactly when each of them slices; on a failure, every sub-unit before the failing one slices |
| Executable.AddTasksContents | python/astra/base.py:356-379  | creating the task rows adds one row per sub-unit at consecutive fresh ids, in order, with the class name, parameters, version and the created status, and keeps every old row |
| Executable.TaskNameAsWritten | python/astra/base.py:347-370 | as written, the stored task name is the class name when there are no parameters and otherwise the last parameter's name |
| Executable.TaskNameShadowed | python/astra/base.py:347-370 | a one-parameter task would be stored under its parameter's name, not its class name |
| Executable.CountNothing | python/astra/base.py:419-428  | items naming no existing row update nothing |
| Executable.CountAll | python/astra/base.py:419-428  | when every item names an existing row, each item is counted |
| Executable.SetRowStatus | python/astra/base.py:420-427  | one `update_status` item: `None` is skipped, and an existing task or bundle row gets the new status |
| Executable.TaskInstance.CreateUnitTasks | python/astra/base.py:356-379  | creates the task rows sub-unit by sub-unit; on success one per sub-unit, on a slicing error exactly the rows before the failing sub-unit, with the same error as the slicing model |
| Executable.TaskInstance.CreateUnitTasksFrom | python/astra/base.py:356-379 | the loop itself: the rows created are those of the sub-units sliced so far, numbered from the next task id, with the items pairing each new id with its sub-unit; it stops at the first slicing error, which is the error of the slicing model |
| Executable.TaskInstance.CreateUnitTask | python/astra/base.py:369-379 | one `Task.create`: the row goes under the next id and the task and its item are appended; bundles, links and statuses are untouched |
| Executable.TaskInstance.GetOrCreateContext | python/astra/base.py:342-388 | a context that already has items is returned unchanged; otherwise it creates one task row per sub-unit under the class name, a bundle linked to all of them when the bundle size exceeds 1, and the context's inputs, tasks, bundle and items; errors leave the context and bundles unchanged |
| Executable.Recorded | python/astra/base.py:328-338 | the recorded item times are the first times the caller spent, one per item taken, less the last one when the caller stops before the generator resumes |
| Executable.TaskInstance.Iterate | python/astra/base.py:310-338 | the new context, log and tables and the items yielded are those of the specification function `AfterIterate` of the old state |
| Executable.IterateEffects | python/astra/base.py:310-338 | a generator the caller never advances changes nothing and yields nothing; otherwise it warns exactly when no stage is known, creates the stage's per-item list, creates the context (and its rows) exactly when it has no work items, raising the creation error when creation fails; trace, results, stage times, bundle times and total are kept |
| Executable.IterateItems | python/astra/base.py:319-338 | the items yielded are the prefix the consumer took of the work items the context has or creates; the stage's per-item list grows by the recorded times, so its sum grows by their sum; every other stage's list is kept |
| Executable.TaskInstance.OpenIterable | python/astra/base.py:325-326 | the new context and tables and the error returned are those of `AfterOpen`: the context is created only when it has no items, and the error is exactly the creation error |
| Executable.TaskInstance.RecordConsumed | python/astra/base.py:328-338 | the items yielded are the prefix the consumer took, and the stage's per-item list gains exactly the recorded times |
| Executable.TaskInstance.UpdateTiming | python/astra/base.py:34-44 | the context's timing becomes `TimingAfter` of the old timing, so the stage's bundle time plus its per-item sum is the elapsed time |
| Executable.ExitContextSpec | python/astra/base.py:21-44 | on the timer's exit the timing entry exists; a failed timing update leaves the timing as it was; otherwise the stage's bundle time is its elapsed time less its per-item times; every other bundle time, every per-item list, the results and the work are kept |
| Executable.TimerExitSpec | python/astra/base.py:21-44 | the timer's exit logs a failed timing update and then the exception leaving the stage, stores a returned value under the stage, records the stage time and total unless the update fails, and keeps trace, tables, work items and per-item lists |
| Executable.TaskInstance.ExitStage | python/astra/base.py:21-32 | the new context is `ExitContext` of the old one, and the log gains the timer's entries for the exception leaving the stage |
| Executable.TaskInstance.RunBody | python/astra/base.py:93-102 | the new state and outcome are those of `AfterBody`: the stage enters the trace and the body's iteration, if any, runs as `iterable` does |
| Executable.BodyEffects | python/astra/base.py:93-102 | a body that does not iterate only enters the trace and returns its outcome, leaving context, log, tables and rows unchanged; one that iterates raises the creation error when the context has no items and cannot be created, and otherwise gains its per-item times |
| Executable.TaskInstance.TimedStage | python/astra/base.py:101-104 | the new state and outcome are those of `AfterTimed`, the body followed by the timer's exit |
| Executable.TimedEffects | python/astra/base.py:101-104 | a timed stage returns the body's outcome unless creating the context fails; it enters the trace once, logs the timer's entries, stores a returned value under the stage, and records the stage time and the total of the three stage times unless the timing update fails, which keeps stage times, bundle times and total |
| Executable.TimedTimes | python/astra/base.py:310-338 | a timed stage's per-item list grows by the times its iteration recorded exactly when the iteration reaches the work items; every other stage's list and existing work items are kept |
| Executable.TimedBundleTimes | python/astra/base.py:34-44 | unless the timing update fails, bundle time of the stage plus the sum of its per-item times is its elapsed time; every other stage's bundle time is kept |
| Executable.TimedWork | python/astra/base.py:325-326 | a timed stage creates the context and its rows exactly when its body iterates over a context without items |
| Executable.TaskInstance.CreateIfEmpty | python/astra/base.py:98-99 | the new context and tables and the error are those of `AfterCreateIfEmpty`: an empty context is created, and filled with its work items, or the creation error is returned |
| Executable.CreateIfEmptyEffects | python/astra/base.py:98-99 | a context holding anything is left alone; an empty one that can be created becomes the created context, with one work item per sub-unit (bundle-size many) and the new rows; otherwise the creation error is returned and only the rows created before it are added |
| Executable.TaskInstance.RunPrePost | python/astra/base.py:90-107 | the new state and outcome are those of `AfterPrePost`, the specification of `decorate_pre_post_execute` |
| Executable.PrePostEffects | python/astra/base.py:90-107 | a returned value is the body's; a decorated stage with an empty context it cannot create raises the creation error before the body, leaving all but the created rows unchanged |
| Executable.PrePostUndecorated | python/astra/base.py:93-94 | an undecorated stage is exactly its body |
| Executable.PrePostRecords | python/astra/base.py:90-107 | undecorated, the stage only enters the trace; decorated and past creation, it enters the trace, logs the timer's entries, stores a returned value under the stage, and records its stage time and the total unless the timing update fails |
| Executable.PrePostTimes | python/astra/base.py:310-338 | the stage's per-item list grows by the recorded times exactly when its iteration reaches the work items; every other per-item list and existing work items are kept |
| Executable.PrePostBundleTimes | python/astra/base.py:34-44 | decorated, past creation and without a timing fault, the stage's bundle time plus its per-item sum is its elapsed time; undecorated or with a timing fault, the bundle times are unchanged; other stages' bundle times are always kept |
| Executable.PrePostKeepsOther | python/astra/base.py:90-107 | a pre- or post-execute stage keeps every other stage's per-item list and bundle time |
| Executable.PrePostWork | python/astra/base.py:90-107 | the stage creates the context and its rows exactly when it is decorated over an empty context or iterates over a context without items |
| Executable.TaskInstance.ExecuteThenPost | python/astra/base.py:123-126 | the new state and outcome are those of `AfterExecuteThenPost`: the timed work, then `post_execute` when it returned |
| Executable.ThenPostEffects | python/astra/base.py:123-126 | a work stage that raises stops there with only execute in the trace; a return needs both stages to return, passes on the work's value, and leaves execute then post-execute in the trace |
| Executable.ThenPostResults | python/astra/base.py:121-126 | on return, the work's value is stored under execute and, when post-execute is decorated, its value under post-execute; nothing else is stored |
| Executable.ThenPostTimings | python/astra/base.py:34-44 | on return without timing faults and with post-execute decorated, the two stage times are the elapsed times and the total is the earlier pre-execute time plus both |
| Executable.ThenPostTimes | python/astra/base.py:310-338 | the per-item lists of execute and (when it ran) post-execute grow by the times each recorded, and a stage that does not iterate keeps its list |
| Executable.ThenPostKeepsPre | python/astra/base.py:123-126 | the pre-execute per-item list is kept |
| Executable.ThenPostKeepsPreBundle | python/astra/base.py:123-126 | the pre-execute bundle time is kept |
| Executable.ThenPostBundleTimes | python/astra/base.py:34-44 | on return with post-execute decorated and no timing fault, its bundle time plus its per-item sum is its elapsed time |
| Executable.ThenPostExecBundleTime | python/astra/base.py:34-44 | on return without a timing fault in the work, execute's bundle time plus its per-item sum is its elapsed time |
| Executable.ThenPostWork | python/astra/base.py:121-126 | the context and its rows are created exactly when the work iterates, or it returns and post-execute iterates, over a context without items |
| Executable.TaskInstance.DecorateExecute | python/astra/base.py:110-157 | the new state and outcome are those of `AfterDecorateExecute`, the specification of `decorate_execute` |
| Executable.ExecuteEffects | python/astra/base.py:110-157 | a returned value is the work's; with execute undecorated only the work runs, with no log entries or stored results; a work stage that raises makes the call raise |
| Executable.ExecuteTrace | python/astra/base.py:110-157 | decorated, the stages entered are a prefix of pre-execute, execute, post-execute, all three exactly on a return and never all three when the work raises |
| Executable.ExecuteResults | python/astra/base.py:121-126 | on return, all three stages returned, and their values are stored under their stages, pre- and post-execute only when decorated |
| Executable.ExecuteTotal | python/astra/base.py:34-44 | on return with all three stages decorated and no timing fault, the total is the sum of the three elapsed times |
| Executable.ExecuteWork | python/astra/base.py:110-157 | the context and its rows are created exactly when some stage reached needs them over a context without items |
| Executable.ExecuteTimes | python/astra/base.py:310-338 | execute's per-item list grows by the times its iteration recorded when that iteration reaches the items and the call returns (or execute is undecorated); a non-iterating work keeps the list; undecorated, every other list is kept |
| Executable.ExecutePreTimes | python/astra/base.py:310-338 | on return, pre-execute's list grows by its recorded times; a non-iterating pre-execute keeps it |
| Executable.ExecutePostTimes | python/astra/base.py:310-338 | on return, post-execute's list grows by its recorded times; a non-iterating post-execute keeps it |
| Executable.ExecuteBundleTimes | python/astra/base.py:34-44 | undecorated, no bundle time changes; on return, execute's and (when decorated and without a timing fault) post-execute's bundle time plus its per-item sum is its elapsed time |
| Executable.ExecutePreBundleTime | python/astra/base.py:34-44 | on return with pre-execute decorated and no timing fault, its bundle time plus its per-item sum is its elapsed time |
| Executable.TaskInstance.UpdateStatus | python/astra/base.py:405-428 | an unknown description raises DoesNotExist and changes nothing; otherwise every named existing task or bundle row (by default the context's tasks, then its bundle) gets that status, and the count is the number of updated items |
| Executable.SetRowsStatus | python/astra/base.py:419-428 | the loop over the items: every existing task or bundle row the items name gets the status, every other row is unchanged, and the count is the number of existing items |
| Outputs.OutputStore.CreateOrUpdateOutputs | python/astra/database/astradb.py:373-439 | the new tables are the reconciliation of the old ones with the results, and the tables stay valid |
| Outputs.ReconcileKeys | python/astra/database/astradb.py:389-437 | the output rows afterwards are the old rows plus one fresh id per surplus result, minus the deleted unused outputs |
| Outputs.ReconcileOverlaid | python/astra/database/astradb.py:399-408  | the first min(existing, results) outputs keep their ids and take the results, in id order, on the model's columns only |
| Outputs.ReconcileCreated | python/astra/database/astradb.py:412-425  | each surplus result becomes a new output row of this task at a fresh id, in order |
| Outputs.ReconcileLinked | python/astra/database/astradb.py:412-419  | with at least as many results as outputs, the new outputs and their task links are added and nothing else is |
| Outputs.ReconcileUntouched | python/astra/database/astradb.py:373-439 | other tasks' rows are unchanged, and so are this task's unused outputs when deletion is off |
| Outputs.ReconcileDeleted | python/astra/database/astradb.py:429-437 | unused outputs are deleted with their links exactly when deletion is on, and nothing else is deleted |
| Outputs.ReconcileTasks | python/astra/database/astradb.py:373-439 | every row keeps its task, and every new row belongs to this task |
| Outputs.ReconcileExisting | python/astra/database/astradb.py:389-393 | afterwards the task's outputs, in id order, are the kept old ones followed by the new ones |
| Outputs.ReconcileCount | python/astra/database/astradb.py:373-439 | afterwards the task has as many outputs as results, except that unused outputs stay when deletion is off |
| Outputs.ReconcileIdempotent | python/astra/database/astradb.py:373-439 | calling it again with the same results changes nothing |
| Outputs.OverlayIdempotent | python/astra/database/astradb.py:402-406  | overlaying the same result twice equals overlaying it once |
| DataProducts.Int | python/astra/database/astradb.py:123-130  | `int(v)`: None, lists and dicts raise TypeError, a non-numeric string raises ValueError, an int is kept, and a float is truncated toward zero |
| DataProducts.Str | python/astra/database/astradb.py:125-127  | `str(v)`: a string is kept and an int's text reads back as the int |
| DataProducts.Coerce | python/astra/database/astradb.py:121-135  | integer keys go through `int`, `apred` through `str`, `field` through `str` and strip, and any other key is kept |
| DataProducts.Adapt | python/astra/database/astradb.py:118-137 | computes the adapted keywords as the specification function `Adapted` does |
| DataProducts.AdaptedOk | python/astra/database/astradb.py:118-137 | adapting succeeds exactly when every value converts under its lower-cased, stripped key |
| DataProducts.AdaptedKeys | python/astra/database/astradb.py:132-136  | the adapted keys are exactly the normalised input keys |
| DataProducts.AdaptedValues | python/astra/database/astradb.py:132-136  | each adapted value is the conversion of the last value given under that normalised key |
| DataProducts.AdaptedFixpoint | python/astra/database/astradb.py:118-137 | adapting already-adapted keywords again gives the same record |
| DataProducts.AdaptedNormalises | python/astra/database/astradb.py:132-136  | keywords that differ only in key case or surrounding white space adapt to the same record |
| DataProducts.CoerceIdempotent | python/astra/database/astradb.py:121-135  | converting a converted value again gives the same value |
| DataProducts.NormKeyIdempotent | python/astra/database/astradb.py:133  | normalising a key twice is normalising it once |
| DataProducts.AdaptAndHash | python/astra/database/astradb.py:176-179 | succeeds exactly when adapting does, returning the adapted keywords and their hash |
| DataProducts.SameAdaptedSameHash | python/astra/database/astradb.py:176-179 | keywords that adapt to the same record get the same hash |
| DataProducts.NewRow | python/astra/database/astradb.py:163-168 | `DataProduct(...)` adapts the keywords (`{}` when absent), keeps a supplied hash and otherwise hashes the adapted keywords, and propagates an adapting error |
| DataProducts.CriteriaOf | python/astra/database/astradb.py:186-196  | the lookup compares release, filetype and the hash of the adapted keywords plus any supplied hash, and an adapting error is raised before any lookup |
| DataProducts.FirstMatch | python/astra/database/astradb.py:198-199  | finds the matching row with the lowest id, or reports that no row matches |
| DataProducts.GetOrCreateFound | python/astra/database/astradb.py:198-199  | a matching row is returned, not created, and the table is unchanged |
| DataProducts.GetOrCreateKeeps | python/astra/database/astradb.py:184-210 | the table stays valid and keeps every row it had |
| DataProducts.GetOrCreateCreated | python/astra/database/astradb.py:200-205  | a created row gets the next id after concurrent inserts and holds the merged fields and defaults |
| DataProducts.GetOrCreateMatches | python/astra/database/astradb.py:198-208  | a row that is returned but not created matches the query |
| DataProducts.GetOrCreateRaises | python/astra/database/astradb.py:206-210  | IntegrityError escapes only when the insert clashed and the re-read still finds no matching row |
| DataProducts.GetOrCreateAgain | python/astra/database/astradb.py:184-210 | after a successful call, the same call finds the row instead of creating one, and the table does not change |
| DataProducts.DataProductStore.GetOrCreate | python/astra/database/astradb.py:184-210 | the store's result and new table are those of the specification function `GetOrCreateOn` |
| DataProducts.DataProductStore.Insert | python/astra/database/astradb.py:143-161  | inserts a row at the next id |
| Aspcap.LsfGridName | python/astra/contrib/aspcap/utils.py:88-105 | a fibre from 1 to 300 has one of the LSF grids a to d, and any other fibre has none |
| Aspcap.LsfGridMonotone | python/astra/contrib/aspcap/utils.py:88-105 | higher fibres never get an earlier grid, and fibres between two with the same grid share it |
| Aspcap.SplitPath | python/astra/contrib/aspcap/utils.py:119  | a path with fewer than five `/`-separated components raises ValueError; otherwise the last five components are taken |
| Aspcap.GdAndType | python/astra/contrib/aspcap/utils.py:121-124  | the class letter and spectral type come from the second basename part, and a short part raises IndexError |
| Aspcap.TaskIdParts | python/astra/contrib/aspcap/utils.py:31-40 | too few path components raise ValueError; otherwise the result is that of the basename's "_"-separated parts |
| Aspcap.TaskIdOf | python/astra/contrib/aspcap/utils.py:33-40 | succeeds exactly when the parts are long enough and the class letter is g or d; otherwise IndexError, or KeyError for another class letter; the result is the telescope ("LCO" exactly when the fourth part continues with "s" after its LSF letter, else "APO"), the LSF letter and `"<spectral_type>-giant"` or `"-dwarf"` |
| Aspcap.TaskIdOfHeaderPath | python/astra/contrib/aspcap/utils.py:31-40 | a header path written from a telescope, an LSF letter, a spectral type and class g or d reads back as those fields |
| Aspcap.TaskIdOfBasename | python/astra/contrib/aspcap/utils.py:33-40 | the same on the basename's parts |
| Aspcap.TaskIdUnknownClass | python/astra/contrib/aspcap/utils.py:38 | a well-formed header path whose class letter is neither g nor d raises KeyError |
| Aspcap.ParseHeaderPath | python/astra/contrib/aspcap/utils.py:108-151 | too few path components raise ValueError; a result carries the path's code, photospheres and isotopes, an empty class exactly when the LSF is "combo5" (then type "BA" and date 2019-11-21), and otherwise a one-letter class and LSF and a valid date |
| Aspcap.HeaderOf | python/astra/contrib/aspcap/utils.py:121-151 | the same on the path's components and the basename's parts |
| Aspcap.ParseOfBaHeaderPath | python/astra/contrib/aspcap/utils.py:124-131 | a `p_apstBA_<stamp>_...` header path reads as class "", type "BA", LSF "combo5" and date 2019-11-21, on LCO exactly when `<stamp>` ends in "s" |
| Aspcap.HeaderOfBa | python/astra/contrib/aspcap/utils.py:124-131 | the same on the basename's parts |
| Aspcap.TaskIdAgreesWithHeader | python/astra/contrib/aspcap/utils.py:31-40  | outside the BA grid, a path both parsers accept has the same LSF in both, "LCO" in one is "lco25m" in the other, and the class is g or d |
| Aspcap.ParseOfHeaderPath | python/astra/contrib/aspcap/utils.py:108-151 | parsing a well-formed header path gives back the code, photosphere, isotope, class, telescope, spectral type, date and LSF it was built from |
| Aspcap.TwoDigitsValue | python/astra/contrib/aspcap/utils.py:135-136  | a two-digit date field reads back as its number |
| Grids.GroupHeaderPaths | python/astra/contrib/aspcap/utils.py:9-28 | computes the grouping as the specification function `Grouped` does |
| Grids.GroupedOk | python/astra/contrib/aspcap/utils.py:9-28 | grouping succeeds exactly when every path parses |
| Grids.GroupedFirstError | python/astra/contrib/aspcap/utils.py:9-28 | a failure is the error of the first path that does not parse |
| Grids.GroupedLists | python/astra/contrib/aspcap/utils.py:20-24  | each group lists exactly the paths of that telescope and LSF, with their descriptions, in input order |
| Grids.GroupedTelescopes | python/astra/contrib/aspcap/utils.py:20-22  | the telescopes grouped are exactly those of the paths |
| Grids.GroupedKeys | python/astra/contrib/aspcap/utils.py:20-24  | a telescope and LSF pair is grouped exactly when some path has it |
| Grids.GroupedLsfs | python/astra/contrib/aspcap/utils.py:18-28  | the LSFs returned are exactly those of the paths |
| Grids.Within | python/astra/contrib/aspcap/utils.py:70-84  | the comparison with the last three grid limits raises ValueError when the lower limits do not broadcast, or when the point passes the lower test and the upper limits do not broadcast (`and` short-circuits); otherwise it answers true exactly when metals, log g and Teff all lie within the limits |
| Grids.YieldSuitableGrids | python/astra/contrib/aspcap/utils.py:43-85 | yields what the specification function `Suitable` yields, in grid order |
| Grids.SuitableFails | python/astra/contrib/aspcap/utils.py:73-84  | the generator raises ValueError exactly when some grid that passes the LSF and telescope filter has limits that do not broadcast |
| Grids.SuitableIndices | python/astra/contrib/aspcap/utils.py:73-85  | without an error, the yielded grids are exactly the fitting grids, in their original order |
| Grids.OffSlitOnlyCombo | python/astra/contrib/aspcap/utils.py:68-80  | a fibre outside 1 to 300 can only be matched by a "combo" LSF grid |
| Abundances.Controls | python/astra/contrib/aspcap/utils.py:219-376  | every known element fixes at least one label, and its ties are either none or the metals' three ties |
| Abundances.HeaderIndex | python/astra/contrib/aspcap/utils.py:378-380 | the 1-based index of the first label with that name, and ValueError when there is none |
| Abundances.Indices | python/astra/contrib/aspcap/utils.py:387 | the indices of all wanted labels, and ValueError when any is missing |
| Abundances.GetAbundanceKeywords | python/astra/contrib/aspcap/utils.py:204-406 | computes the keywords as the specification function `KeywordsFor` does |
| Abundances.KeywordsFor | python/astra/contrib/aspcap/utils.py:382-385 | an unknown element raises ValueError (the KeyError is re-raised); a known one gives its controls' keywords |
| Abundances.KeywordsOf | python/astra/contrib/aspcap/utils.py:387-406 | the frozen map covers every label, and a label is frozen exactly when it is not one of the element's varied labels |
| Abundances.KeywordsOk | python/astra/contrib/aspcap/utils.py:204-406 | succeeds exactly when the element is known and all its varied and tied labels are present |
| Abundances.KeywordsCounts | python/astra/contrib/aspcap/utils.py:390-403 | there are 2 + 3 × NTIE keywords, with NTIE 0 or 3, starting with NTIE and TYPETIE = 1 |
| Abundances.KeywordsTies | python/astra/contrib/aspcap/utils.py:397-403  | tie m is written as `INDTIE(m+1)`, `TTIE0(m+1)` and `TTIE(m+1,indv0)`, holding the tied label's index and the tie constants |
| Abundances.TableTies | python/astra/contrib/aspcap/utils.py:219-376  | every tie in the table has constants 0 and -1 |
| Abundances.KeywordsDistinct | python/astra/contrib/aspcap/utils.py:390-403 | no keyword name is written twice |

## Left out

- Executable.TaskInstance.Iterate: the stage is a parameter (`None` when it cannot be inferred). The model does not read it from the call stack.
- Executable.TaskInstance.RunBody: a stage body calls `iterable()` at most once (a `StageBody` carries one optional consumer). A body that iterates several times, restarting the timer and adding each pass's times into the same per-item list by index, is not modelled.
- Executable.TaskInstance.ExitStage: a failure in `update_timing` is modelled as one flag per stage body. Timing details of other exception paths are not modelled.
- Executable.TaskInstance.GetOrCreateContext: models the corrected naming (the class name), not the shadowed name (see Findings). `get_or_create_data_products` and its filesystem checks are not part of this model; the resolved inputs are a parameter.
- Clocks: the elapsed times that `time()` gives are parameters.
- Outputs.OutputStore.CreateOrUpdateOutputs: an existing row's task is never overwritten, although a result holding a `task` column would overwrite it. A new row stores its whole result record, including `None` values and keys that are not columns; how `insert_many` treats those keys, and a `**r` that overrides `task_id` or `output_id`, are not modelled.
- Outputs.OutputStore.CreateOrUpdateOutputs: each of the three phases commits in its own `database.atomic()` block, and a store failure in a later phase leaves the earlier ones committed. The model has no store failures, so every call completes all three phases.
- DataProducts.AdaptAndHash: the MD5 over JSON is an uninterpreted function parameter, and so is `repr` of floats and containers.
- DataProducts.SameAdaptedSameHash: the hash is taken of the adapted record as an unordered map. `json.dumps` keeps insertion order, so the same keywords given in another order hash differently, and `get_or_create` then misses the existing row and inserts a second one. The model does not capture this.
- Text.Lower: lower-cases ASCII letters only, while `str.lower` lower-cases every Unicode letter. Keys with non-ASCII capitals normalise differently from the source.
- DataProducts.Adapted: the insertion order of the resulting dictionary is not modelled, since a record is a map.
- DataProducts.Int: `int()` of strings with underscores, signs with spaces or non-ASCII digits is not modelled; only ASCII digit strings with an optional sign parse.
- Aspcap.ParseHeaderPath: the date's year, month and day are read with the same ASCII-only integer parser as DataProducts.Int, so `int()` of date fields with underscores, spaces or non-ASCII digits is not modelled there either.
- DataProducts.FirstMatch: `.get()` without `order_by` is modelled as the matching row with the lowest id.
- Tasks.TaskStore.StatusId: `Status.get(description=...)` has no `order_by`, and the Status table's unique index is on (id, description), so two rows may share a description. The model takes the first such row; the database may return either.
- DataProducts.NewRow: the `metadata`, `created` and `updated` columns and other timestamps are not modelled.
- Tasks.TaskStore.BundleTasks: `list(self.tasks)` in `split` has no `order_by`, so the database may return the tasks in any order. The model takes them in the order the join rows were created.
- The key order of the grouped dictionaries and the order of `list(set(...))` of LSFs are not modelled; the LSFs are a set.
- Grids.YieldSuitableGrids: the mean fibre is taken as an integer, so `np.round` of a fractional mean is not modelled. Limits are reals, so NaN and floating-point comparison are not modelled. A broadcast mismatch raises ValueError as in recent numpy.
- `parse_grid_information`, `approximate_log10_microturbulence`, `Bundle.watch_status` and the database setup are not part of this model.
- Error message texts are not modelled; only the exception class is.

## Findings

| source | as written | input that shows it | evidently intended | confidence | as-written member | corrected member |
|---|---|---|---|---|---|---|
| python/astra/base.py:347, 364, 370 | `name` holds the task's class name at line 347, but the loop over the parameters at line 364 rebinds it, so line 370 stores the last parameter's name as the task name | a task class with one parameter `model_path`: its Task rows are named "model_path" | every Task row carries the task's class name | not executed | Executable.TaskNameAsWritten | Executable.TaskInstance.GetOrCreateContext |
