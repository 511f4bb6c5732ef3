/**
  The output rows of tasks: `Task.create_or_update_outputs`, which makes the
  rows an output table holds for one task mirror a new list of results. The
  database is three tables and an id counter: the `Output` table (one fresh
  id per output), the `TaskOutput` link table, and the model's own table,
  whose primary key is the output id.
 */
module Outputs {
  import opened Values

  /** A row of an output model table: the task it belongs to and its other columns. */
  datatype OutputRow = OutputRow(task: nat, fields: map<string, Value>)

  /** A `TaskOutput` row. */
  datatype TaskOutputRow = TaskOutputRow(task: nat, output: nat)

  /** One result: a dictionary from column name to value. */
  type Record = map<string, Value>

  /** The three tables and the next id the `Output` table hands out. */
  datatype Tables = Tables(
    outputs: set<nat>,
    links: seq<TaskOutputRow>,
    rows: map<nat, OutputRow>,
    next: nat)

  /** Every allocated output id is below the counter, and rows and links refer to allocated outputs. */
  predicate TablesValid(t: Tables) {
    && (forall id :: id in t.outputs ==> id < t.next)
    && t.rows.Keys <= t.outputs
    && (forall i :: 0 <= i < |t.links| ==> t.links[i].output in t.outputs)
  }

  predicate Ascending(s: seq<nat>) {
    forall i, j :: 0 <= i < j < |s| ==> s[i] < s[j]
  }

  // ---------------------------------------------------------------------------
  // The existing outputs of a task.

  /**
    The ids below `bound` of the rows that belong to `task`, in ascending
    order: `model.select().where(model.task == task).order_by(model.output_id.asc())`.
   */
  function Existing(rows: map<nat, OutputRow>, task: nat, bound: nat): seq<nat> {
    if bound == 0 then []
    else Existing(rows, task, bound - 1) + (if bound - 1 in rows && rows[bound - 1].task == task then [bound - 1] else [])
  }

  lemma {:induction false} ExistingContents(rows: map<nat, OutputRow>, task: nat, bound: nat)
    ensures Ascending(Existing(rows, task, bound))
    ensures forall id :: id in Existing(rows, task, bound) <==> id < bound && id in rows && rows[id].task == task
  {
    if bound > 0 {
      ExistingContents(rows, task, bound - 1);
      var p := Existing(rows, task, bound - 1);
      forall i | 0 <= i < |p| ensures p[i] < bound - 1 {
        assert p[i] in p;
      }
    }
  }

  /** In an ascending sequence every element but the last lies below the last, in the prefix. */
  lemma AscendingLast(s: seq<nat>, z: nat)
    requires Ascending(s) && z in s
    ensures z <= s[|s| - 1]
    ensures z != s[|s| - 1] ==> z in s[..|s| - 1]
  {
    var i :| 0 <= i < |s| && s[i] == z;
    if i < |s| - 1 {
      assert s[..|s| - 1][i] == z;
    }
  }

  lemma HeadIsMember(s: seq<nat>)
    ensures |s| > 0 ==> s[0] in s
  {
  }

  /** An ascending sequence is determined by its elements. */
  lemma {:induction false} AscendingUnique(a: seq<nat>, b: seq<nat>)
    requires Ascending(a) && Ascending(b)
    requires forall x :: x in a <==> x in b
    ensures a == b
    decreases |a|
  {
    if a == [] || b == [] {
      HeadIsMember(a);
      HeadIsMember(b);
    } else {
      var x, y := a[|a| - 1], b[|b| - 1];
      var a', b' := a[..|a| - 1], b[..|b| - 1];
      AscendingLast(a, y);
      AscendingLast(b, x);
      assert x == y;
      forall z | z in a' ensures z in b' {
        assert z in a && z < x;
        AscendingLast(b, z);
      }
      forall z | z in b' ensures z in a' {
        assert z in b && z < y;
        AscendingLast(a, z);
      }
      AscendingUnique(a', b');
      assert a == a' + [x] && b == b' + [y];
    }
  }

  // ---------------------------------------------------------------------------
  // The three phases.

  /** Does `result` overwrite column `key`: a model column with a value other than `None`? */
  predicate Overwrites(result: Record, columns: set<string>, key: string) {
    key in result && key in columns && !result[key].VNone?
  }

  /** An existing row's columns after `setattr(output, key, value)` for the keys `result` overwrites. */
  function Overlay(fields: Record, result: Record, columns: set<string>): Record {
    fields + map key | key in result && Overwrites(result, columns, key) :: result[key]
  }

  /** Each column is the result's value where the result overwrites it, and the old value otherwise. */
  lemma OverlayContents(fields: Record, result: Record, columns: set<string>)
    ensures var r := Overlay(fields, result, columns);
      && (forall key :: key in r <==> key in fields || Overwrites(result, columns, key))
      && (forall key :: key in r ==> r[key] == if Overwrites(result, columns, key) then result[key] else fields[key])
  {
  }

  /** Applying the same result twice changes nothing more. */
  lemma OverlayIdempotent(fields: Record, result: Record, columns: set<string>)
    ensures Overlay(Overlay(fields, result, columns), result, columns) == Overlay(fields, result, columns)
  {
  }

  /** A freshly inserted row already holds everything its own result would overwrite. */
  lemma OverlaySelf(result: Record, columns: set<string>)
    ensures Overlay(result, result, columns) == result
  {
  }

  /** The rows after the first `k` existing outputs have been overlaid with the first `k` results. */
  function UpdateRows(rows: map<nat, OutputRow>, ids: seq<nat>, results: seq<Record>, columns: set<string>, k: nat)
    : (r: map<nat, OutputRow>)
    requires k <= |ids| && k <= |results|
    requires forall i :: 0 <= i < |ids| ==> ids[i] in rows
    ensures r.Keys == rows.Keys
    ensures forall id :: id in r ==> r[id].task == rows[id].task
  {
    if k == 0 then rows
    else
      var u := UpdateRows(rows, ids, results, columns, k - 1);
      var id := ids[k - 1];
      u[id := u[id].(fields := Overlay(u[id].fields, results[k - 1], columns))]
  }

  lemma {:induction false} UpdateRowsContents(rows: map<nat, OutputRow>, ids: seq<nat>, results: seq<Record>, columns: set<string>, k: nat)
    requires k <= |ids| && k <= |results|
    requires forall i :: 0 <= i < |ids| ==> ids[i] in rows
    requires Ascending(ids)
    ensures forall i :: 0 <= i < k ==>
      UpdateRows(rows, ids, results, columns, k)[ids[i]] == rows[ids[i]].(fields := Overlay(rows[ids[i]].fields, results[i], columns))
    ensures forall i :: k <= i < |ids| ==> UpdateRows(rows, ids, results, columns, k)[ids[i]] == rows[ids[i]]
    ensures forall id :: id in rows && id !in ids ==> UpdateRows(rows, ids, results, columns, k)[id] == rows[id]
  {
    if k > 0 {
      UpdateRowsContents(rows, ids, results, columns, k - 1);
      var r := UpdateRows(rows, ids, results, columns, k);
      var last := ids[k - 1];
      forall i | 0 <= i < k
        ensures r[ids[i]] == rows[ids[i]].(fields := Overlay(rows[ids[i]].fields, results[i], columns))
      {
        if i < k - 1 {
          assert ids[i] < last;
        }
      }
      forall i | k <= i < |ids| ensures r[ids[i]] == rows[ids[i]] {
        assert last < ids[i];
      }
      forall id | id in rows && id !in ids ensures r[id] == rows[id] {
        assert last in ids;
      }
    }
  }

  /** The new model rows: the j-th new output id carries `results[j]` and the task. */
  function AddRows(rows: map<nat, OutputRow>, task: nat, first: nat, results: seq<Record>): map<nat, OutputRow> {
    if results == [] then rows
    else AddRows(rows, task, first, results[..|results| - 1])[first + |results| - 1 := OutputRow(task, results[|results| - 1])]
  }

  lemma {:induction false} AddRowsContents(rows: map<nat, OutputRow>, task: nat, first: nat, results: seq<Record>)
    requires forall id :: id in rows ==> id < first
    ensures forall id :: id in AddRows(rows, task, first, results) <==> id in rows || first <= id < first + |results|
    ensures forall id :: id in rows ==> AddRows(rows, task, first, results)[id] == rows[id]
    ensures forall j :: 0 <= j < |results| ==> AddRows(rows, task, first, results)[first + j] == OutputRow(task, results[j])
  {
    if results != [] {
      AddRowsContents(rows, task, first, results[..|results| - 1]);
    }
  }

  /** The `TaskOutput` rows for `count` new outputs from `first` on. */
  function NewLinks(task: nat, first: nat, count: nat): (links: seq<TaskOutputRow>)
    ensures |links| == count
    ensures forall j :: 0 <= j < count ==> links[j] == TaskOutputRow(task, first + j)
  {
    if count == 0 then [] else NewLinks(task, first, count - 1) + [TaskOutputRow(task, first + count - 1)]
  }

  /** The ids `first .. first + count - 1`. */
  function Fresh(first: nat, count: nat): set<nat> {
    Elements(IdRange(first, count))
  }

  /** `first, first + 1, …, first + count - 1` */
  function IdRange(first: nat, count: nat): (ids: seq<nat>)
    ensures |ids| == count
    ensures forall j :: 0 <= j < count ==> ids[j] == first + j
  {
    if count == 0 then [] else IdRange(first, count - 1) + [first + count - 1]
  }

  /** The links left after deleting those to the outputs in `gone`. */
  function DropLinks(links: seq<TaskOutputRow>, gone: set<nat>): (r: seq<TaskOutputRow>)
    ensures forall l :: l in r <==> l in links && l.output !in gone
  {
    if links == [] then []
    else
      var last := links[|links| - 1];
      DropLinks(links[..|links| - 1], gone) + (if last.output in gone then [] else [last])
  }

  /** The elements of a sequence of ids. */
  function Elements(ids: seq<nat>): set<nat> {
    set id | id in ids
  }

  function Min(a: nat, b: nat): nat {
    if a < b then a else b
  }

  /** The update phase: the first `k` existing outputs take the first `k` results. */
  function UpdatePhase(t: Tables, ids: seq<nat>, results: seq<Record>, columns: set<string>, k: nat): Tables
    requires k <= |ids| && k <= |results|
    requires forall i :: 0 <= i < |ids| ==> ids[i] in t.rows
  {
    t.(rows := UpdateRows(t.rows, ids, results, columns, k))
  }

  /** The creation phase: one new output, link and row per surplus result. */
  function CreatePhase(t: Tables, task: nat, surplus: seq<Record>): Tables {
    Tables(
      t.outputs + Fresh(t.next, |surplus|),
      t.links + NewLinks(task, t.next, |surplus|),
      AddRows(t.rows, task, t.next, surplus),
      t.next + |surplus|)
  }

  /** The deletion phase: the outputs in `gone` leave all three tables. */
  function DeletePhase(t: Tables, gone: set<nat>): Tables {
    Tables(t.outputs - gone, DropLinks(t.links, gone), t.rows - gone, t.next)
  }

  /**
    The tables after `create_or_update_outputs(task, results,
    delete_existing_unused_outputs)`: the first `min(N_existing, N_results)`
    existing rows are overlaid with the results in order, one new output
    (with its link and its row) is created per surplus result, and, with the
    flag set, the surplus existing outputs are deleted from all three tables.
   */
  function Reconcile(t: Tables, task: nat, results: seq<Record>, columns: set<string>, deleteUnused: bool): Tables
    requires TablesValid(t)
  {
    var ids := Existing(t.rows, task, t.next);
    ExistingContents(t.rows, task, t.next);
    var updated := UpdatePhase(t, ids, results, columns, Min(|ids|, |results|));
    var created := if |results| > |ids| then CreatePhase(updated, task, results[|ids|..]) else updated;
    if deleteUnused && |ids| > |results| then DeletePhase(created, Elements(ids[|results|..])) else created
  }

  // ---------------------------------------------------------------------------
  // The store.

  class OutputStore {
    /** The `Output` table. */
    var outputs: set<nat>
    /** The `TaskOutput` table. */
    var links: seq<TaskOutputRow>
    /** The output model's table, keyed by output id. */
    var rows: map<nat, OutputRow>
    /** The id the `Output` table hands out next. */
    var nextOutputId: nat
    /** The model's columns, `model._meta.fields`. */
    const columns: set<string>

    function State(): Tables
      reads this
    {
      Tables(outputs, links, rows, nextOutputId)
    }

    predicate Valid()
      reads this
    {
      TablesValid(State())
    }

    constructor (columns: set<string>)
      ensures Valid() && this.columns == columns
      ensures State() == Tables({}, [], map[], 1)
    {
      this.columns := columns;
      outputs, links, rows, nextOutputId := {}, [], map[], 1;
    }

    /**
      `Task.create_or_update_outputs(model, results, delete_existing_unused_outputs)`
      for the task `task`.
     */
    method CreateOrUpdateOutputs(task: nat, results: seq<Record>, deleteUnused: bool)
      requires Valid()
      modifies this
      ensures Valid()
      ensures State() == Reconcile(old(State()), task, results, columns, deleteUnused)
    {
      var existing := Existing(rows, task, nextOutputId);
      ExistingContents(rows, task, nextOutputId);
      var ne, nr := |existing|, |results|;
      UpdateOutputs(existing, results, Min(ne, nr));
      if nr > ne {
        CreateOutputs(task, results[ne..]);
      }
      if deleteUnused && ne > nr {
        DeleteOutputs(Elements(existing[nr..]));
      }
      ReconcileValid(old(State()), task, results, columns, deleteUnused);
    }

    /** `setattr` on the first `k` existing outputs, then `model.bulk_update`. */
    method UpdateOutputs(existing: seq<nat>, results: seq<Record>, k: nat)
      requires k <= |existing| && k <= |results|
      requires forall i :: 0 <= i < |existing| ==> existing[i] in rows
      modifies this`rows
      ensures State() == UpdatePhase(old(State()), existing, results, columns, k)
    {
      for i := 0 to k
        invariant rows == UpdateRows(old(rows), existing, results, columns, i)
      {
        var id := existing[i];
        rows := rows[id := rows[id].(fields := Overlay(rows[id].fields, results[i], columns))];
      }
    }

    /**
      `Output.bulk_create`, `TaskOutput.insert_many` and `model.insert_many`
      for the surplus results, done one output at a time.
     */
    method CreateOutputs(task: nat, surplus: seq<Record>)
      modifies this`outputs, this`links, this`rows, this`nextOutputId
      ensures State() == CreatePhase(old(State()), task, surplus)
    {
      var first := nextOutputId;
      for j := 0 to |surplus|
        invariant rows == AddRows(old(rows), task, first, surplus[..j])
        invariant outputs == old(outputs) + Fresh(first, j)
        invariant links == old(links) + NewLinks(task, first, j)
        invariant nextOutputId == first + j
      {
        var id := nextOutputId;
        nextOutputId := id + 1;
        outputs := outputs + {id};
        links := links + [TaskOutputRow(task, id)];
        rows := rows[id := OutputRow(task, surplus[j])];
        assert surplus[..j + 1][..j] == surplus[..j];
        assert IdRange(first, j + 1) == IdRange(first, j) + [first + j];
      }
      assert surplus[..|surplus|] == surplus;
    }

    /** The three `delete().where(output_id in unused)` queries. */
    method DeleteOutputs(gone: set<nat>)
      modifies this`outputs, this`links, this`rows
      ensures State() == DeletePhase(old(State()), gone)
    {
      rows := rows - gone;
      links := DropLinks(links, gone);
      outputs := outputs - gone;
    }
  }

  // ---------------------------------------------------------------------------
  // What the reconciliation promises.

  lemma FreshContents(first: nat, count: nat)
    ensures forall id :: id in Fresh(first, count) <==> first <= id < first + count
  {
    var ids := IdRange(first, count);
    forall id | first <= id < first + count ensures id in Fresh(first, count) {
      assert ids[id - first] == id;
    }
  }

  lemma CreatePhaseValid(t: Tables, task: nat, surplus: seq<Record>)
    requires TablesValid(t)
    ensures TablesValid(CreatePhase(t, task, surplus))
  {
    FreshContents(t.next, |surplus|);
    AddRowsContents(t.rows, task, t.next, surplus);
    var r := CreatePhase(t, task, surplus);
    forall i | 0 <= i < |r.links| ensures r.links[i].output in r.outputs {
      if i >= |t.links| {
        assert r.links[i] == NewLinks(task, t.next, |surplus|)[i - |t.links|];
      }
    }
  }

  lemma DeletePhaseValid(t: Tables, gone: set<nat>)
    requires TablesValid(t)
    ensures TablesValid(DeletePhase(t, gone))
  {
    var r := DeletePhase(t, gone);
    forall i | 0 <= i < |r.links| ensures r.links[i].output in r.outputs {
      assert r.links[i] in r.links;
      var j :| 0 <= j < |t.links| && t.links[j] == r.links[i];
    }
  }

  lemma ReconcileValid(t: Tables, task: nat, results: seq<Record>, columns: set<string>, deleteUnused: bool)
    requires TablesValid(t)
    ensures TablesValid(Reconcile(t, task, results, columns, deleteUnused))
  {
    var ids := Existing(t.rows, task, t.next);
    ExistingContents(t.rows, task, t.next);
    var updated := UpdatePhase(t, ids, results, columns, Min(|ids|, |results|));
    assert TablesValid(updated);
    if |results| > |ids| {
      CreatePhaseValid(updated, task, results[|ids|..]);
    }
    var created := if |results| > |ids| then CreatePhase(updated, task, results[|ids|..]) else updated;
    if deleteUnused && |ids| > |results| {
      DeletePhaseValid(created, Elements(ids[|results|..]));
    }
  }

  /** Ids below the counter are not among the new ones, so deletion and creation never meet. */
  lemma {:induction false} IdRangeContents(first: nat, count: nat)
    ensures Ascending(IdRange(first, count))
    ensures forall id :: id in IdRange(first, count) <==> first <= id < first + count
  {
    if count > 0 {
      IdRangeContents(first, count - 1);
    }
  }

  /** The number of new outputs the reconciliation creates. */
  function Created(t: Tables, task: nat, results: seq<Record>): nat {
    var ne := |Existing(t.rows, task, t.next)|;
    if |results| > ne then |results| - ne else 0
  }

  /** The existing outputs the reconciliation deletes: those past the results, when the flag is set. */
  function Unused(t: Tables, task: nat, results: seq<Record>, deleteUnused: bool): seq<nat> {
    var ids := Existing(t.rows, task, t.next);
    if deleteUnused && |ids| > |results| then ids[|results|..] else []
  }

  /**
    The model table afterwards holds the old rows minus the unused ones,
    plus exactly the new ids the counter handed out.
   */
  lemma ReconcileKeys(t: Tables, task: nat, results: seq<Record>, columns: set<string>, deleteUnused: bool)
    requires TablesValid(t)
    ensures var r := Reconcile(t, task, results, columns, deleteUnused);
      && r.next == t.next + Created(t, task, results)
      && (forall id :: id in r.rows <==>
            (id in t.rows || t.next <= id < t.next + Created(t, task, results)) && id !in Unused(t, task, results, deleteUnused))
  {
    var ids := Existing(t.rows, task, t.next);
    ExistingContents(t.rows, task, t.next);
    var u := UpdatePhase(t, ids, results, columns, Min(|ids|, |results|));
    if |results| > |ids| {
      AddRowsContents(u.rows, task, t.next, results[|ids|..]);
    }
  }

  /** The first `min(N_existing, N_results)` existing outputs keep their ids and take the results in order. */
  lemma ReconcileOverlaid(t: Tables, task: nat, results: seq<Record>, columns: set<string>, deleteUnused: bool)
    requires TablesValid(t)
    ensures var ids := Existing(t.rows, task, t.next);
      var r := Reconcile(t, task, results, columns, deleteUnused);
      forall k :: 0 <= k < |ids| && k < |results| ==>
        && ids[k] in t.rows && ids[k] in r.rows
        && r.rows[ids[k]] == t.rows[ids[k]].(fields := Overlay(t.rows[ids[k]].fields, results[k], columns))
  {
    var ids := Existing(t.rows, task, t.next);
    var r := Reconcile(t, task, results, columns, deleteUnused);
    ExistingContents(t.rows, task, t.next);
    var m := Min(|ids|, |results|);
    UpdateRowsContents(t.rows, ids, results, columns, m);
    var u := UpdatePhase(t, ids, results, columns, m);
    if |results| > |ids| {
      AddRowsContents(u.rows, task, t.next, results[|ids|..]);
      assert r == CreatePhase(u, task, results[|ids|..]);
    } else if deleteUnused && |ids| > |results| {
      assert r == DeletePhase(u, Elements(ids[m..]));
      SplitMembership(ids, m);
      forall k | 0 <= k < m ensures ids[k] !in ids[m..] {
        assert ids[..m][k] == ids[k];
      }
    } else {
      assert r == u;
    }
  }

  /**
    The j-th new output (ids from the old counter on) was not in use before,
    belongs to the task and holds result `N_existing + j`.
   */
  lemma ReconcileCreated(t: Tables, task: nat, results: seq<Record>, columns: set<string>, deleteUnused: bool)
    requires TablesValid(t)
    ensures var ids := Existing(t.rows, task, t.next);
      var r := Reconcile(t, task, results, columns, deleteUnused);
      forall id :: t.next <= id < t.next + Created(t, task, results) ==>
        && id !in t.outputs && id in r.rows
        && r.rows[id] == OutputRow(task, results[|ids| + (id - t.next)])
  {
    var ids := Existing(t.rows, task, t.next);
    var r := Reconcile(t, task, results, columns, deleteUnused);
    if |results| > |ids| {
      var u := ReconcileCreates(t, task, results, columns, deleteUnused);
      SurplusRows(u, task, results, |ids|);
      forall id | t.next <= id < t.next + Created(t, task, results)
        ensures id !in t.outputs && id in r.rows && r.rows[id] == OutputRow(task, results[|ids| + (id - t.next)])
      {
      }
    }
  }

  /** With more results than outputs, the reconciliation is the creation phase after the update phase. */
  lemma ReconcileCreates(t: Tables, task: nat, results: seq<Record>, columns: set<string>, deleteUnused: bool)
    returns (u: Tables)
    requires TablesValid(t)
    requires |results| > |Existing(t.rows, task, t.next)|
    ensures u.next == t.next && u.rows.Keys == t.rows.Keys
    ensures Reconcile(t, task, results, columns, deleteUnused)
      == CreatePhase(u, task, results[|Existing(t.rows, task, t.next)|..])
  {
    var ids := Existing(t.rows, task, t.next);
    ExistingContents(t.rows, task, t.next);
    u := UpdatePhase(t, ids, results, columns, |ids|);
  }

  /** The creation phase on the results from `from` on: the new id `next + j` holds result `from + j`. */
  lemma SurplusRows(t: Tables, task: nat, results: seq<Record>, from: nat)
    requires from <= |results|
    requires forall id :: id in t.rows ==> id < t.next
    ensures var c := CreatePhase(t, task, results[from..]);
      forall id :: t.next <= id < t.next + (|results| - from) ==>
        id in c.rows && c.rows[id] == OutputRow(task, results[from + (id - t.next)])
  {
    var c := CreatePhase(t, task, results[from..]);
    CreatePhaseRows(t, task, results[from..]);
    forall id | t.next <= id < t.next + (|results| - from)
      ensures id in c.rows && c.rows[id] == OutputRow(task, results[from + (id - t.next)])
    {
      assert results[from..][id - t.next] == results[from + (id - t.next)];
    }
  }

  lemma CreatePhaseRows(t: Tables, task: nat, surplus: seq<Record>)
    requires forall id :: id in t.rows ==> id < t.next
    ensures forall id :: t.next <= id < t.next + |surplus| ==>
      id in CreatePhase(t, task, surplus).rows && CreatePhase(t, task, surplus).rows[id] == OutputRow(task, surplus[id - t.next])
  {
    AddRowsContents(t.rows, task, t.next, surplus);
    forall id | t.next <= id < t.next + |surplus|
      ensures AddRows(t.rows, task, t.next, surplus)[id] == OutputRow(task, surplus[id - t.next])
    {
      assert AddRows(t.rows, task, t.next, surplus)[t.next + (id - t.next)] == OutputRow(task, surplus[id - t.next]);
    }
  }

  /**
    When nothing is to be deleted, the `Output` table gains exactly the new
    ids and the `TaskOutput` table gains one link per new output, in order.
   */
  lemma ReconcileLinked(t: Tables, task: nat, results: seq<Record>, columns: set<string>, deleteUnused: bool)
    requires TablesValid(t)
    requires |results| >= |Existing(t.rows, task, t.next)|
    ensures var r := Reconcile(t, task, results, columns, deleteUnused);
      var created := Created(t, task, results);
      r.outputs == t.outputs + Fresh(t.next, created) && r.links == t.links + NewLinks(task, t.next, created)
  {
    if |results| == |Existing(t.rows, task, t.next)| {
      assert Fresh(t.next, 0) == {};
    }
  }

  lemma {:induction false} DropNothing(links: seq<TaskOutputRow>)
    ensures DropLinks(links, {}) == links
  {
    if links != [] {
      var init := links[..|links| - 1];
      DropNothing(init);
      calc {
        DropLinks(links, {});
        DropLinks(init, {}) + [links[|links| - 1]];
        init + [links[|links| - 1]];
        links;
      }
    }
  }

  /**
    Rows of other tasks are untouched, and so are the existing outputs past
    the results when the flag is not set.
   */
  lemma ReconcileUntouched(t: Tables, task: nat, results: seq<Record>, columns: set<string>, deleteUnused: bool)
    requires TablesValid(t)
    ensures var ids := Existing(t.rows, task, t.next);
      var r := Reconcile(t, task, results, columns, deleteUnused);
      && (forall id :: id in t.rows && t.rows[id].task != task ==> id in r.rows && r.rows[id] == t.rows[id])
      && (forall k :: |results| <= k < |ids| && !deleteUnused ==> ids[k] in r.rows && r.rows[ids[k]] == t.rows[ids[k]])
  {
    var ids := Existing(t.rows, task, t.next);
    ExistingContents(t.rows, task, t.next);
    var m := Min(|ids|, |results|);
    UpdateRowsContents(t.rows, ids, results, columns, m);
    var u := UpdatePhase(t, ids, results, columns, m);
    if |results| > |ids| {
      AddRowsContents(u.rows, task, t.next, results[|ids|..]);
    }
  }

  /**
    With the flag set, exactly the unused outputs leave the `Output` table,
    the `TaskOutput` table and the model table; without it nothing is
    deleted anywhere.
   */
  lemma ReconcileDeleted(t: Tables, task: nat, results: seq<Record>, columns: set<string>, deleteUnused: bool)
    requires TablesValid(t)
    ensures var r := Reconcile(t, task, results, columns, deleteUnused);
      var unused := Unused(t, task, results, deleteUnused);
      && (forall id :: id in unused ==> id in t.outputs && id !in r.outputs && id !in r.rows)
      && (forall l :: l in r.links ==> l.output !in unused)
      && (forall id :: id in t.outputs && id !in unused ==> id in r.outputs)
      && (forall l :: l in t.links && l.output !in unused ==> l in r.links)
  {
    var ids := Existing(t.rows, task, t.next);
    ExistingContents(t.rows, task, t.next);
    var u := UpdatePhase(t, ids, results, columns, Min(|ids|, |results|));
    if |results| > |ids| {
      AddRowsContents(u.rows, task, t.next, results[|ids|..]);
      DropNothing(t.links + NewLinks(task, t.next, |results| - |ids|));
    } else if deleteUnused && |ids| > |results| {
      DropNothing(t.links);
    } else {
      DropNothing(t.links);
    }
  }

  /** The existing outputs that survive: all of them, or only the first `N_results` when unused ones are deleted. */
  function Kept(ids: seq<nat>, results: seq<Record>, deleteUnused: bool): seq<nat> {
    if deleteUnused && |ids| > |results| then ids[..|results|] else ids
  }

  /** Every row keeps the task it had; the new rows belong to the task. */
  lemma ReconcileTasks(t: Tables, task: nat, results: seq<Record>, columns: set<string>, deleteUnused: bool)
    requires TablesValid(t)
    ensures var r := Reconcile(t, task, results, columns, deleteUnused);
      forall id :: id in r.rows ==> r.rows[id].task == if id in t.rows then t.rows[id].task else task
  {
    var ids := Existing(t.rows, task, t.next);
    ExistingContents(t.rows, task, t.next);
    var u := UpdatePhase(t, ids, results, columns, Min(|ids|, |results|));
    var r := Reconcile(t, task, results, columns, deleteUnused);
    if |results| > |ids| {
      var extra := results[|ids|..];
      assert r == CreatePhase(u, task, extra);
      CreatePhaseTasks(u, task, extra);
    } else {
      assert r.rows.Keys <= u.rows.Keys;
      assert forall id :: id in r.rows ==> r.rows[id] == u.rows[id];
    }
  }

  lemma CreatePhaseTasks(t: Tables, task: nat, surplus: seq<Record>)
    requires forall id :: id in t.rows ==> id < t.next
    ensures var c := CreatePhase(t, task, surplus);
      forall id :: id in c.rows ==> c.rows[id].task == if id in t.rows then t.rows[id].task else task
  {
    AddRowsContents(t.rows, task, t.next, surplus);
    CreatePhaseRows(t, task, surplus);
  }

  lemma SplitMembership(s: seq<nat>, n: nat)
    requires Ascending(s) && n <= |s|
    ensures forall x :: x in s[..n] <==> x in s && x !in s[n..]
  {
    forall x | x in s
      ensures x in s[..n] <==> x !in s[n..]
    {
      var i :| 0 <= i < |s| && s[i] == x;
      if i < n {
        assert s[..n][i] == x;
        forall j | 0 <= j < |s| - n ensures s[n..][j] != x {
          assert s[n + j] > s[i];
        }
      } else {
        assert s[n..][i - n] == x;
        forall j | 0 <= j < n ensures s[..n][j] != x {
          assert s[j] < s[i];
        }
      }
    }
  }

  lemma AscendingConcat(a: seq<nat>, b: seq<nat>, bound: nat)
    requires Ascending(a) && Ascending(b)
    requires forall x :: x in a ==> x < bound
    requires forall x :: x in b ==> bound <= x
    ensures Ascending(a + b)
  {
    forall i, j | 0 <= i < j < |a + b| ensures (a + b)[i] < (a + b)[j] {
      if j < |a| {
      } else if i >= |a| {
        assert (a + b)[i] == b[i - |a|] && (a + b)[j] == b[j - |a|];
      } else {
        assert a[i] in a && b[j - |a|] in b;
      }
    }
  }

  /**
    Read back afterwards, the task's outputs are the surviving existing ones
    followed by the new ones, in id order: with the flag set the task ends
    up with exactly one output per result.
   */
  lemma ReconcileExisting(t: Tables, task: nat, results: seq<Record>, columns: set<string>, deleteUnused: bool)
    requires TablesValid(t)
    ensures var ids := Existing(t.rows, task, t.next);
      var r := Reconcile(t, task, results, columns, deleteUnused);
      Existing(r.rows, task, r.next) == Kept(ids, results, deleteUnused) + IdRange(t.next, Created(t, task, results))
  {
    var ids := Existing(t.rows, task, t.next);
    var r := Reconcile(t, task, results, columns, deleteUnused);
    var kept := Kept(ids, results, deleteUnused);
    var fresh' := IdRange(t.next, Created(t, task, results));
    ExistingContents(t.rows, task, t.next);
    ExistingContents(r.rows, task, r.next);
    IdRangeContents(t.next, Created(t, task, results));
    ReconcileMembers(t, task, results, columns, deleteUnused);
    assert Ascending(kept);
    AscendingConcat(kept, fresh', t.next);
    AscendingUnique(Existing(r.rows, task, r.next), kept + fresh');
  }

  /** The ids of the task's rows afterwards, as a set. */
  lemma ReconcileMembers(t: Tables, task: nat, results: seq<Record>, columns: set<string>, deleteUnused: bool)
    requires TablesValid(t)
    ensures var ids := Existing(t.rows, task, t.next);
      var r := Reconcile(t, task, results, columns, deleteUnused);
      && (forall x :: x in Kept(ids, results, deleteUnused) ==> x < t.next)
      && (forall x :: x in Existing(r.rows, task, r.next) <==>
            x in Kept(ids, results, deleteUnused) || t.next <= x < t.next + Created(t, task, results))
  {
    var ids := Existing(t.rows, task, t.next);
    ExistingContents(t.rows, task, t.next);
    ExistingContents(Reconcile(t, task, results, columns, deleteUnused).rows, task, Reconcile(t, task, results, columns, deleteUnused).next);
    ReconcileKeys(t, task, results, columns, deleteUnused);
    ReconcileTasks(t, task, results, columns, deleteUnused);
    SplitMembership(ids, if deleteUnused && |ids| > |results| then |results| else |ids|);
  }

  /** With the flag set, the task is left with exactly `N_results` outputs; without it, with the larger count. */
  lemma ReconcileCount(t: Tables, task: nat, results: seq<Record>, columns: set<string>, deleteUnused: bool)
    requires TablesValid(t)
    ensures var ne := |Existing(t.rows, task, t.next)|;
      var r := Reconcile(t, task, results, columns, deleteUnused);
      |Existing(r.rows, task, r.next)| == if deleteUnused || |results| >= ne then |results| else ne
  {
    ReconcileExisting(t, task, results, columns, deleteUnused);
  }

  /**
    After a reconciliation, the task's i-th output already holds what the
    i-th result would write into it.
   */
  lemma ReconcileSettled(t: Tables, task: nat, results: seq<Record>, columns: set<string>, deleteUnused: bool)
    requires TablesValid(t)
    ensures var r := Reconcile(t, task, results, columns, deleteUnused);
      var after := Existing(r.rows, task, r.next);
      forall i :: 0 <= i < |after| && i < |results| ==>
        after[i] in r.rows && r.rows[after[i]].fields == Overlay(r.rows[after[i]].fields, results[i], columns)
  {
    var r := Reconcile(t, task, results, columns, deleteUnused);
    var after := Existing(r.rows, task, r.next);
    forall i | 0 <= i < |after| && i < |results|
      ensures after[i] in r.rows && r.rows[after[i]].fields == Overlay(r.rows[after[i]].fields, results[i], columns)
    {
      SettledAt(t, task, results, columns, deleteUnused, i);
    }
  }

  /** The i-th output afterwards is either a kept one or a new one, and holds result i either way. */
  lemma SettledAt(t: Tables, task: nat, results: seq<Record>, columns: set<string>, deleteUnused: bool, i: nat)
    requires TablesValid(t)
    requires var r := Reconcile(t, task, results, columns, deleteUnused);
      i < |Existing(r.rows, task, r.next)| && i < |results|
    ensures var r := Reconcile(t, task, results, columns, deleteUnused);
      var after := Existing(r.rows, task, r.next);
      after[i] in r.rows && r.rows[after[i]].fields == Overlay(r.rows[after[i]].fields, results[i], columns)
  {
    var ids := Existing(t.rows, task, t.next);
    var r := Reconcile(t, task, results, columns, deleteUnused);
    var after := Existing(r.rows, task, r.next);
    var kept := Kept(ids, results, deleteUnused);
    ReconcileExisting(t, task, results, columns, deleteUnused);
    if i < |kept| {
      assert after[i] == ids[i];
      SettledKept(t, task, results, columns, deleteUnused, i);
    } else {
      assert after[i] == IdRange(t.next, Created(t, task, results))[i - |kept|];
      assert |ids| + (i - |kept|) == i;
      SettledFresh(t, task, results, columns, deleteUnused, i - |kept|);
    }
  }

  /** A kept output that a result overlaid already holds that result. */
  lemma SettledKept(t: Tables, task: nat, results: seq<Record>, columns: set<string>, deleteUnused: bool, i: nat)
    requires TablesValid(t)
    requires i < |Kept(Existing(t.rows, task, t.next), results, deleteUnused)| && i < |results|
    ensures var ids := Existing(t.rows, task, t.next);
      var r := Reconcile(t, task, results, columns, deleteUnused);
      ids[i] in r.rows && r.rows[ids[i]].fields == Overlay(r.rows[ids[i]].fields, results[i], columns)
  {
    var ids := Existing(t.rows, task, t.next);
    ReconcileOverlaid(t, task, results, columns, deleteUnused);
    OverlayIdempotent(t.rows[ids[i]].fields, results[i], columns);
  }

  /** A new output already holds the result it was created from. */
  lemma SettledFresh(t: Tables, task: nat, results: seq<Record>, columns: set<string>, deleteUnused: bool, j: nat)
    requires TablesValid(t)
    requires j < Created(t, task, results)
    ensures var ids := Existing(t.rows, task, t.next);
      var r := Reconcile(t, task, results, columns, deleteUnused);
      var id := IdRange(t.next, Created(t, task, results))[j];
      id in r.rows && r.rows[id].fields == Overlay(r.rows[id].fields, results[|ids| + j], columns)
  {
    var ids := Existing(t.rows, task, t.next);
    ReconcileCreated(t, task, results, columns, deleteUnused);
    OverlaySelf(results[|ids| + j], columns);
  }

  /**
    Reconciling a task's outputs a second time with the same results
    changes nothing: the tables are already what the results ask for.
   */
  lemma ReconcileIdempotent(t: Tables, task: nat, results: seq<Record>, columns: set<string>, deleteUnused: bool)
    requires TablesValid(t)
    ensures TablesValid(Reconcile(t, task, results, columns, deleteUnused))
    ensures var r := Reconcile(t, task, results, columns, deleteUnused);
      Reconcile(r, task, results, columns, deleteUnused) == r
  {
    var r := Reconcile(t, task, results, columns, deleteUnused);
    ReconcileValid(t, task, results, columns, deleteUnused);
    ReconcileCount(t, task, results, columns, deleteUnused);
    ReconcileSettled(t, task, results, columns, deleteUnused);
    ExistingContents(r.rows, task, r.next);
    RowsSettled(r.rows, Existing(r.rows, task, r.next), results, columns);
  }

  /** Overlaying rows that already hold their results leaves them as they are. */
  lemma RowsSettled(rows: map<nat, OutputRow>, ids: seq<nat>, results: seq<Record>, columns: set<string>)
    requires Ascending(ids) && |results| <= |ids|
    requires forall i :: 0 <= i < |ids| ==> ids[i] in rows
    requires forall i :: 0 <= i < |results| ==> rows[ids[i]].fields == Overlay(rows[ids[i]].fields, results[i], columns)
    ensures UpdateRows(rows, ids, results, columns, |results|) == rows
  {
    UpdateRowsContents(rows, ids, results, columns, |results|);
    var u := UpdateRows(rows, ids, results, columns, |results|);
    forall id | id in rows ensures u[id] == rows[id] {
      if id in ids {
        var i :| 0 <= i < |ids| && ids[i] == id;
      }
    }
  }
}
