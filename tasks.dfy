/**
  The persisted Task, Bundle, TaskBundle and Status tables that a task
  instance writes to, and `Bundle.split`, which spreads the tasks of one
  bundle over N new bundles.
 */
module Tasks {
  import opened Wrappers
  import opened Values

  /** The status every new Task and Bundle row starts with (the column default). */
  const CreatedStatus: nat := 1

  datatype TaskRow = TaskRow(name: string, parameters: seq<(string, Value)>, version: string, status: nat)

  datatype BundleRow = BundleRow(status: nat)

  /** One row of the join table between tasks and bundles. */
  datatype TaskBundle = TaskBundle(task: nat, bundle: nat)

  /** `tasks[lo:hi]` with Python's clamping of out-of-range bounds. */
  function Slice(tasks: seq<nat>, lo: nat, hi: nat): (r: seq<nat>)
    ensures lo >= |tasks| ==> r == []
  {
    var a := if lo < |tasks| then lo else |tasks|;
    var b := if hi < a then a else if hi < |tasks| then hi else |tasks|;
    tasks[a..b]
  }

  /** The i-th chunk of `Bundle.split`: `tasks[i * size : (i + 1) * size]`. */
  function Chunk(tasks: seq<nat>, size: nat, i: nat): seq<nat> {
    Slice(tasks, Offset(i, size), Offset(i + 1, size))
  }

  /** `i * size`, the start of chunk i, defined by repeated addition. */
  function Offset(i: nat, size: nat): nat {
    if i == 0 then 0 else Offset(i - 1, size) + size
  }

  lemma {:induction false} OffsetIsProduct(i: nat, size: nat)
    ensures Offset(i, size) == i * size
  {
    if i > 0 {
      OffsetIsProduct(i - 1, size);
    }
  }

  /** The join rows that attach the tasks of chunk i to the bundle `bundle`. */
  function ChunkLinks(chunk: seq<nat>, bundle: nat): (links: seq<TaskBundle>)
    ensures |links| == |chunk|
    ensures forall j :: 0 <= j < |chunk| ==> links[j] == TaskBundle(chunk[j], bundle)
  {
    if chunk == [] then [] else [TaskBundle(chunk[0], bundle)] + ChunkLinks(chunk[1..], bundle)
  }

  /** The join rows written for the first `count` new bundles, numbered from `first`. */
  function SplitLinks(tasks: seq<nat>, size: nat, first: nat, count: nat): seq<TaskBundle> {
    if count == 0 then []
    else SplitLinks(tasks, size, first, count - 1) + ChunkLinks(Chunk(tasks, size, count - 1), first + count - 1)
  }

  /** The tasks of the first `count` chunks, concatenated. */
  function Chunks(tasks: seq<nat>, size: nat, count: nat): seq<nat> {
    if count == 0 then [] else Chunks(tasks, size, count - 1) + Chunk(tasks, size, count - 1)
  }

  /** The first `count` chunks, concatenated, are the tasks up to `count * size`. */
  lemma {:induction false} ChunksArePrefix(tasks: seq<nat>, size: nat, count: nat)
    ensures Chunks(tasks, size, count) == Slice(tasks, 0, Offset(count, size))
  {
    if count > 0 {
      ChunksArePrefix(tasks, size, count - 1);
      var lo := Offset(count - 1, size);
      if lo < |tasks| {
        var hi := if Offset(count, size) < |tasks| then Offset(count, size) else |tasks|;
        assert tasks[0..lo] + tasks[lo..hi] == tasks[0..hi];
      }
    }
  }

  /**
    The chunk size of `Bundle.split` is large enough: the N chunks together
    hold every task of the bundle, each once and in order, and any chunk past
    the tasks is empty.
   */
  lemma SplitCoversAll(tasks: seq<nat>, n: nat)
    requires n >= 2
    ensures Chunks(tasks, SplitSize(|tasks|, n), n) == tasks
    ensures forall i :: Offset(i, SplitSize(|tasks|, n)) >= |tasks| ==> Chunk(tasks, SplitSize(|tasks|, n), i) == []
  {
    var size := SplitSize(|tasks|, n);
    ChunksArePrefix(tasks, size, n);
    SplitSizeCovers(|tasks|, n);
    OffsetIsProduct(n, size);
  }

  /** N chunks of size `1 + T div N` hold more than T tasks. */
  lemma SplitSizeCovers(total: nat, n: nat)
    requires n >= 2
    ensures n * SplitSize(total, n) > total
  {
    var q := total / n;
    assert total == n * q + total % n;
    assert n * SplitSize(total, n) == n * q + n;
  }

  /**
    The join rows of the split name the chunks' tasks, in order, bundle by
    bundle: the j-th task of the chunked prefix goes to bundle `first + j / size`.
   */
  lemma {:induction false} SplitLinksTasks(tasks: seq<nat>, size: nat, first: nat, count: nat)
    ensures |SplitLinks(tasks, size, first, count)| == |Chunks(tasks, size, count)|
    ensures forall j :: 0 <= j < |SplitLinks(tasks, size, first, count)| ==>
      SplitLinks(tasks, size, first, count)[j].task == Chunks(tasks, size, count)[j]
      && first <= SplitLinks(tasks, size, first, count)[j].bundle < first + count
    ensures size > 0 ==> forall j :: 0 <= j < |SplitLinks(tasks, size, first, count)| ==>
      SplitLinks(tasks, size, first, count)[j].bundle == first + j / size
  {
    SplitLinksLength(tasks, size, first, count);
    SplitLinksContents(tasks, size, first, count);
    if size > 0 {
      SplitLinksBundles(tasks, size, first, count);
    }
  }

  /** The j-th join row names the j-th task of the chunks, and one of the new bundles. */
  lemma {:induction false} SplitLinksContents(tasks: seq<nat>, size: nat, first: nat, count: nat)
    ensures |SplitLinks(tasks, size, first, count)| == |Chunks(tasks, size, count)|
    ensures forall j :: 0 <= j < |SplitLinks(tasks, size, first, count)| ==>
      SplitLinks(tasks, size, first, count)[j].task == Chunks(tasks, size, count)[j]
      && first <= SplitLinks(tasks, size, first, count)[j].bundle < first + count
  {
    if count > 0 {
      SplitLinksContents(tasks, size, first, count - 1);
      var prev := SplitLinks(tasks, size, first, count - 1);
      var chunk := Chunk(tasks, size, count - 1);
      var added := ChunkLinks(chunk, first + count - 1);
      var links := SplitLinks(tasks, size, first, count);
      var before := Chunks(tasks, size, count - 1);
      assert links == prev + added;
      assert Chunks(tasks, size, count) == before + chunk;
      forall j | 0 <= j < |links|
        ensures links[j].task == Chunks(tasks, size, count)[j] && first <= links[j].bundle < first + count
      {
        if j < |prev| {
          assert links[j] == prev[j];
        } else {
          assert links[j] == added[j - |prev|];
        }
      }
    }
  }

  lemma {:induction false} SplitLinksLength(tasks: seq<nat>, size: nat, first: nat, count: nat)
    ensures |SplitLinks(tasks, size, first, count)| == |Chunks(tasks, size, count)|
  {
    if count > 0 {
      SplitLinksLength(tasks, size, first, count - 1);
    }
  }

  /** Chunk i starts at `i * size`, so the join row at position j goes to bundle `first + j / size`. */
  lemma {:induction false} SplitLinksBundles(tasks: seq<nat>, size: nat, first: nat, count: nat)
    requires size > 0
    ensures forall j :: 0 <= j < |SplitLinks(tasks, size, first, count)| ==>
      SplitLinks(tasks, size, first, count)[j].bundle == first + j / size
  {
    if count > 0 {
      SplitLinksBundles(tasks, size, first, count - 1);
      var prev := SplitLinks(tasks, size, first, count - 1);
      var added := ChunkLinks(Chunk(tasks, size, count - 1), first + count - 1);
      var links := SplitLinks(tasks, size, first, count);
      assert links == prev + added;
      if added != [] {
        ChunkBounds(tasks, size, first, count - 1);
        OffsetIsProduct(count - 1, size);
      }
      forall j | 0 <= j < |links| ensures links[j].bundle == first + j / size {
        if j < |prev| {
          assert links[j] == prev[j];
        } else {
          assert links[j] == added[j - |prev|];
          DivInRange(j, count - 1, size);
        }
      }
    }
  }

  /** A non-empty chunk i starts at `i * size`, after all the join rows of the chunks before it, and holds at most `size` tasks. */
  lemma ChunkBounds(tasks: seq<nat>, size: nat, first: nat, i: nat)
    requires Chunk(tasks, size, i) != []
    ensures |SplitLinks(tasks, size, first, i)| == Offset(i, size)
    ensures |Chunk(tasks, size, i)| <= size
  {
    SplitLinksLength(tasks, size, first, i);
    ChunksArePrefix(tasks, size, i);
  }

  /** A number between `q * size` and `(q + 1) * size` has quotient q. */
  lemma DivInRange(j: nat, q: nat, size: nat)
    requires size > 0 && q * size <= j < q * size + size
    ensures j / size == q
  {
    var d, r := j / size, j % size;
    assert j == d * size + r && 0 <= r < size;
    if d > q {
      MulStep(q, d, size);
    } else if d < q {
      MulStep(d, q, size);
    }
  }

  /** `a < b` leaves room for one more `c` between `a * c` and `b * c`. */
  lemma MulStep(a: nat, b: nat, c: nat)
    requires a < b
    ensures a * c + c <= b * c
  {
    assert b * c == a * c + c + (b - a - 1) * c;
  }

  /** The contents of the tables a task instance writes to, at one moment. */
  datatype StoreState = StoreState(
    tasks: map<nat, TaskRow>,
    bundles: map<nat, BundleRow>,
    taskBundles: seq<TaskBundle>,
    statuses: seq<string>,
    nextTaskId: nat,
    nextBundleId: nat)

  class TaskStore {
    /** Task rows by id. */
    var tasks: map<nat, TaskRow>
    /** Bundle rows by id. */
    var bundles: map<nat, BundleRow>
    /** TaskBundle rows, in the order they were created. */
    var taskBundles: seq<TaskBundle>
    /** Status descriptions; the row at position i has id i + 1. */
    var statuses: seq<string>
    /** The next id each auto-increment column hands out. */
    var nextTaskId: nat
    var nextBundleId: nat

    ghost predicate Valid()
      reads this
    {
      && (forall id :: id in tasks ==> id < nextTaskId)
      && (forall id :: id in bundles ==> id < nextBundleId)
    }

    /** The tables as they stand. */
    function State(): StoreState
      reads this
    {
      StoreState(tasks, bundles, taskBundles, statuses, nextTaskId, nextBundleId)
    }

    constructor (statuses: seq<string>)
      ensures Valid()
      ensures tasks == map[] && bundles == map[] && taskBundles == [] && this.statuses == statuses
    {
      tasks, bundles, taskBundles := map[], map[], [];
      this.statuses := statuses;
      nextTaskId, nextBundleId := 1, 1;
    }

    /** `Task.create(name=..., parameters=..., version=...)` */
    method CreateTask(name: string, parameters: seq<(string, Value)>, version: string) returns (id: nat)
      requires Valid()
      modifies this
      ensures Valid()
      ensures id == old(nextTaskId) && id !in old(tasks) && nextTaskId == id + 1
      ensures tasks == old(tasks)[id := TaskRow(name, parameters, version, CreatedStatus)]
      ensures bundles == old(bundles) && taskBundles == old(taskBundles) && nextBundleId == old(nextBundleId)
      ensures statuses == old(statuses)
    {
      id := nextTaskId;
      tasks := tasks[id := TaskRow(name, parameters, version, CreatedStatus)];
      nextTaskId := nextTaskId + 1;
    }

    /** `Bundle.create()` */
    method CreateBundle() returns (id: nat)
      requires Valid()
      modifies this
      ensures Valid()
      ensures id == old(nextBundleId) && id !in old(bundles) && nextBundleId == id + 1
      ensures bundles == old(bundles)[id := BundleRow(CreatedStatus)]
      ensures tasks == old(tasks) && taskBundles == old(taskBundles) && nextTaskId == old(nextTaskId)
      ensures statuses == old(statuses)
    {
      id := nextBundleId;
      bundles := bundles[id := BundleRow(CreatedStatus)];
      nextBundleId := nextBundleId + 1;
    }

    /** `TaskBundle.create(task=task, bundle=bundle)` */
    method Link(task: nat, bundle: nat)
      requires Valid()
      modifies this
      ensures Valid()
      ensures taskBundles == old(taskBundles) + [TaskBundle(task, bundle)]
      ensures tasks == old(tasks) && bundles == old(bundles) && statuses == old(statuses)
      ensures nextTaskId == old(nextTaskId) && nextBundleId == old(nextBundleId)
    {
      taskBundles := taskBundles + [TaskBundle(task, bundle)];
    }

    /** `bundle.tasks`: the tasks joined to a bundle, in join-row order. */
    function BundleTasks(bundle: nat): (r: seq<nat>)
      reads this
    {
      TasksOf(taskBundles, bundle)
    }

    /** `Status.get(description=...)`: the first status with that description. */
    function StatusId(description: string): (r: Option<nat>)
      reads this
      ensures r.Some? ==> 1 <= r.value <= |statuses| && statuses[r.value - 1] == description
      ensures r.Some? ==> forall i :: 0 <= i < r.value - 1 ==> statuses[i] != description
      ensures r.None? ==> description !in statuses
    {
      FirstIndex(statuses, description)
    }

    /** `Task.update(status=...).where(Task.id == id).execute()`: the number of rows changed. */
    method SetTaskStatus(id: nat, status: nat) returns (count: nat)
      requires Valid()
      modifies this
      ensures Valid()
      ensures count == (if id in old(tasks) then 1 else 0)
      ensures tasks == if id in old(tasks) then old(tasks)[id := old(tasks)[id].(status := status)] else old(tasks)
      ensures bundles == old(bundles) && taskBundles == old(taskBundles) && statuses == old(statuses)
      ensures nextTaskId == old(nextTaskId) && nextBundleId == old(nextBundleId)
    {
      if id in tasks {
        tasks := tasks[id := tasks[id].(status := status)];
        count := 1;
      } else {
        count := 0;
      }
    }

    /** `Bundle.update(status=...).where(Bundle.id == id).execute()` */
    method SetBundleStatus(id: nat, status: nat) returns (count: nat)
      requires Valid()
      modifies this
      ensures Valid()
      ensures count == (if id in old(bundles) then 1 else 0)
      ensures bundles == if id in old(bundles) then old(bundles)[id := BundleRow(status)] else old(bundles)
      ensures tasks == old(tasks) && taskBundles == old(taskBundles) && statuses == old(statuses)
      ensures nextTaskId == old(nextTaskId) && nextBundleId == old(nextBundleId)
    {
      if id in bundles {
        bundles := bundles[id := BundleRow(status)];
        count := 1;
      } else {
        count := 0;
      }
    }

    /** One `TaskBundle.create` per task of `chunk`, all joined to `bundle`. */
    method LinkAll(chunk: seq<nat>, bundle: nat)
      requires Valid()
      modifies this
      ensures Valid()
      ensures taskBundles == old(taskBundles) + ChunkLinks(chunk, bundle)
      ensures tasks == old(tasks) && bundles == old(bundles) && statuses == old(statuses)
      ensures nextTaskId == old(nextTaskId) && nextBundleId == old(nextBundleId)
    {
      for j := 0 to |chunk|
        invariant Valid()
        invariant taskBundles == old(taskBundles) + ChunkLinks(chunk[..j], bundle)
        invariant tasks == old(tasks) && bundles == old(bundles) && statuses == old(statuses)
        invariant nextTaskId == old(nextTaskId) && nextBundleId == old(nextBundleId)
      {
        Link(chunk[j], bundle);
        assert ChunkLinks(chunk[..j + 1], bundle) == ChunkLinks(chunk[..j], bundle) + [TaskBundle(chunk[j], bundle)];
      }
      assert chunk[..|chunk|] == chunk;
    }

    /**
      `Bundle.split(N)`: creates N new bundles and joins chunk i of the
      bundle's tasks, of size `1 + T div N`, to the i-th of them. The old
      bundle keeps its own join rows.
     */
    method Split(bundle: nat, n: int) returns (r: Result<seq<nat>, PyError>)
      requires Valid()
      modifies this
      ensures Valid()
      ensures n < 2 <==> r == Err(ValueError)
      ensures r.Err? ==> bundles == old(bundles) && taskBundles == old(taskBundles) && nextBundleId == old(nextBundleId)
      ensures r.Ok? ==>
        var ts := old(BundleTasks(bundle));
        && r.value == Range(old(nextBundleId), n)
        && nextBundleId == old(nextBundleId) + n
        && bundles == AddBundles(old(bundles), old(nextBundleId), n)
        && taskBundles == old(taskBundles) + SplitLinks(ts, SplitSize(|ts|, n), old(nextBundleId), n)
      ensures tasks == old(tasks) && statuses == old(statuses) && nextTaskId == old(nextTaskId)
    {
      if n < 2 {
        return Err(ValueError);
      }
      var ts := BundleTasks(bundle);
      var size := SplitSize(|ts|, n);
      var first := nextBundleId;
      var created: seq<nat> := [];
      for i := 0 to n
        invariant Valid()
        invariant nextBundleId == first + i
        invariant created == Range(first, i)
        invariant bundles == AddBundles(old(bundles), first, i)
        invariant taskBundles == old(taskBundles) + SplitLinks(ts, size, first, i)
        invariant tasks == old(tasks) && statuses == old(statuses) && nextTaskId == old(nextTaskId)
      {
        SplitStep(old(bundles), ts, size, first, i);
        var b := CreateBundle();
        var links := ChunkLinks(Chunk(ts, size, i), b);
        LinkAll(Chunk(ts, size, i), b);
        Associative(old(taskBundles), SplitLinks(ts, size, first, i), links);
        created := created + [b];
      }
      r := Ok(created);
    }
  }

  /** One more bundle of the split: its row, its id and its chunk's join rows come last. */
  lemma SplitStep(bundles: map<nat, BundleRow>, tasks: seq<nat>, size: nat, first: nat, i: nat)
    ensures AddBundles(bundles, first, i + 1) == AddBundles(bundles, first, i)[first + i := BundleRow(CreatedStatus)]
    ensures Range(first, i + 1) == Range(first, i) + [first + i]
    ensures SplitLinks(tasks, size, first, i + 1) == SplitLinks(tasks, size, first, i) + ChunkLinks(Chunk(tasks, size, i), first + i)
  {
  }

  lemma Associative<T>(a: seq<T>, b: seq<T>, c: seq<T>)
    ensures a + (b + c) == (a + b) + c
  {
  }

  /** The chunk size of `Bundle.split`: `1 + int(T / N)`. */
  function SplitSize(total: nat, n: nat): (size: nat)
    requires n >= 2
    ensures size >= 1
  {
    1 + total / n
  }

  /** The ids `first, first + 1, ..., first + count - 1`. */
  function Range(first: nat, count: nat): seq<nat> {
    if count == 0 then [] else Range(first, count - 1) + [first + count - 1]
  }

  lemma {:induction false} RangeContents(first: nat, count: nat)
    ensures |Range(first, count)| == count
    ensures forall k :: 0 <= k < count ==> Range(first, count)[k] == first + k
  {
    if count > 0 {
      RangeContents(first, count - 1);
    }
  }

  /** `bundles` with Bundle rows added for `count` new ids numbered from `first`. */
  function AddBundles(bundles: map<nat, BundleRow>, first: nat, count: nat): map<nat, BundleRow> {
    if count == 0 then bundles else AddBundles(bundles, first, count - 1)[first + count - 1 := BundleRow(CreatedStatus)]
  }

  /** The split adds exactly the new ids, each with the initial status, and keeps the old rows. */
  lemma {:induction false} AddBundlesContents(bundles: map<nat, BundleRow>, first: nat, count: nat)
    requires forall id :: id in bundles ==> id < first
    ensures forall id :: id in AddBundles(bundles, first, count) <==> id in bundles || first <= id < first + count
    ensures forall id :: id in bundles ==> AddBundles(bundles, first, count)[id] == bundles[id]
    ensures forall id :: first <= id < first + count ==> AddBundles(bundles, first, count)[id] == BundleRow(CreatedStatus)
  {
    if count > 0 {
      AddBundlesContents(bundles, first, count - 1);
    }
  }

  /** The tasks joined to `bundle` by the given join rows, in order. */
  function TasksOf(links: seq<TaskBundle>, bundle: nat): (r: seq<nat>)
    ensures |r| <= |links|
  {
    if links == [] then []
    else (if links[0].bundle == bundle then [links[0].task] else []) + TasksOf(links[1..], bundle)
  }

  /** A task is in a bundle exactly when a join row links the two. */
  lemma {:induction false} TasksOfMembers(links: seq<TaskBundle>, bundle: nat)
    ensures forall t :: t in TasksOf(links, bundle) <==> TaskBundle(t, bundle) in links
  {
    if links != [] {
      TasksOfMembers(links[1..], bundle);
      assert links == [links[0]] + links[1..];
    }
  }

  /** The 1-based position of the first occurrence of `x` in `s`. */
  function FirstIndex(s: seq<string>, x: string): (r: Option<nat>)
    ensures r.Some? ==> 1 <= r.value <= |s| && s[r.value - 1] == x
    ensures r.Some? ==> forall i :: 0 <= i < r.value - 1 ==> s[i] != x
    ensures r.None? ==> x !in s
  {
    if s == [] then None
    else if s[0] == x then Some(1)
    else match FirstIndex(s[1..], x)
      case None => None
      case Some(k) => Some(k + 1)
  }
}
