/**
  Choosing FERRE grids: the grouping of header paths by telescope and LSF,
  and the grids suitable for one observation.
 */
module Grids {
  import opened Wrappers
  import opened Text
  import opened Values
  import opened Aspcap

  // ---------------------------------------------------------------------------
  // `group_header_paths`

  /** One grouped entry: the spectral description and the header path. */
  type Entry = (string, string)

  /**
    What `group_header_paths` returns: the entries by telescope, then by LSF,
    and the set of LSFs met. Dictionary key order and the order of the
    `list(set(...))` of LSFs are not modelled.
   */
  datatype Groups = Groups(grouped: map<string, map<string, seq<Entry>>>, lsfs: set<string>)

  /** `grouped[telescope][lsf]`, or the empty list where there is no such group. */
  function Listed(g: Groups, telescope: string, lsf: string): seq<Entry> {
    if telescope in g.grouped && lsf in g.grouped[telescope] then g.grouped[telescope][lsf] else []
  }

  /** The `setdefault`s and the `append` of one path, whose parts are `id`. */
  function AddPath(g: Groups, id: TaskId, path: string): (r: Groups)
    ensures r.grouped.Keys == g.grouped.Keys + {id.telescope}
    ensures r.lsfs == g.lsfs + {id.lsf}
  {
    var inner := if id.telescope in g.grouped then g.grouped[id.telescope] else map[];
    var list := if id.lsf in inner then inner[id.lsf] else [];
    Groups(g.grouped[id.telescope := inner[id.lsf := list + [(id.description, path)]]], g.lsfs + {id.lsf})
  }

  /** Adding a path appends it to its own group and leaves every other group as it was. */
  lemma AddPathListed(g: Groups, id: TaskId, path: string, telescope: string, lsf: string)
    ensures Listed(AddPath(g, id, path), telescope, lsf) ==
      Listed(g, telescope, lsf) + (if (telescope, lsf) == (id.telescope, id.lsf) then [(id.description, path)] else [])
    ensures (telescope in AddPath(g, id, path).grouped && lsf in AddPath(g, id, path).grouped[telescope]) <==>
      (telescope in g.grouped && lsf in g.grouped[telescope]) || (telescope, lsf) == (id.telescope, id.lsf)
  {
  }

  /** The parser of a header path's parts: `task_id_parts` (`TaskIdParts`). */
  type Parser = string -> Result<TaskId, PyError>

  /**
    `group_header_paths(header_paths)` with the paths' parts read by `parse`:
    the paths grouped in order, or the error `parse` raises on the first path
    it fails on.
   */
  function Grouped(paths: seq<string>, parse: Parser): Result<Groups, PyError>
  {
    if paths == [] then Ok(Groups(map[], {}))
    else
      var last := paths[|paths| - 1];
      match Grouped(paths[..|paths| - 1], parse)
      case Err(e) => Err(e)
      case Ok(g) =>
        match parse(last)
        case Err(e) => Err(e)
        case Ok(id) => Ok(AddPath(g, id, last))
  }

  /** The paths whose parts name `telescope` and `lsf`, with their descriptions, in input order. */
  function Selected(paths: seq<string>, parse: Parser, telescope: string, lsf: string): seq<Entry>
  {
    if paths == [] then []
    else
      var last := paths[|paths| - 1];
      var id := parse(last);
      Selected(paths[..|paths| - 1], parse, telescope, lsf)
        + (if id.Ok? && id.value.telescope == telescope && id.value.lsf == lsf then [(id.value.description, last)] else [])
  }

  /** `parse` accepts every path. */
  predicate AllParse(paths: seq<string>, parse: Parser) {
    forall k :: 0 <= k < |paths| ==> parse(paths[k]).Ok?
  }

  /** `group_header_paths(header_paths)`. */
  method GroupHeaderPaths(paths: seq<string>) returns (r: Result<Groups, PyError>)
    ensures r == Grouped(paths, TaskIdParts)
  {
    r := GroupWith(paths, TaskIdParts);
  }

  /**
    The loop of `group_header_paths`, with `parse` for `task_id_parts`. The
    list of LSFs that the source turns into a set at the end is kept as a set
    throughout.
   */
  method GroupWith(paths: seq<string>, parse: Parser) returns (r: Result<Groups, PyError>)
    ensures r == Grouped(paths, parse)
  {
    var grouped: map<string, map<string, seq<Entry>>> := map[];
    var lsfs: set<string> := {};
    var i := 0;
    while i < |paths|
      invariant 0 <= i <= |paths|
      invariant Grouped(paths[..i], parse) == Ok(Groups(grouped, lsfs))
    {
      assert paths[..i + 1][..i] == paths[..i];
      var path := paths[i];
      var id := parse(path);
      if id.Err? {
        GroupedStuck(paths, parse, i + 1);
        return Err(id.error);
      }
      var tel, lsf := id.value.telescope, id.value.lsf;
      var inner := if tel in grouped then grouped[tel] else map[];
      var list := if lsf in inner then inner[lsf] else [];
      grouped := grouped[tel := inner[lsf := list + [(id.value.description, path)]]];
      lsfs := lsfs + {lsf};
      i := i + 1;
    }
    assert paths[..i] == paths;
    r := Ok(Groups(grouped, lsfs));
  }

  /** Once a prefix fails, the whole list fails with the same error. */
  lemma {:induction false} GroupedStuck(paths: seq<string>, parse: Parser, n: nat)
    requires n <= |paths| && Grouped(paths[..n], parse).Err?
    ensures Grouped(paths, parse) == Grouped(paths[..n], parse)
    decreases |paths| - n
  {
    if n < |paths| {
      assert paths[..n + 1][..n] == paths[..n];
      GroupedStuck(paths, parse, n + 1);
    } else {
      assert paths[..n] == paths;
    }
  }

  /** Grouping succeeds exactly when `parse` accepts every path. */
  lemma {:induction false} GroupedOk(paths: seq<string>, parse: Parser)
    ensures Grouped(paths, parse).Ok? <==> AllParse(paths, parse)
  {
    if paths != [] {
      var init := paths[..|paths| - 1];
      GroupedOk(init, parse);
      assert forall k :: 0 <= k < |init| ==> init[k] == paths[k];
    }
  }

  /** A failure is the error of the first path `parse` rejects. */
  lemma {:induction false} GroupedFirstError(paths: seq<string>, parse: Parser)
    requires Grouped(paths, parse).Err?
    ensures exists k :: 0 <= k < |paths| && AllParse(paths[..k], parse) && parse(paths[k]) == Err(Grouped(paths, parse).error)
  {
    var init := paths[..|paths| - 1];
    if Grouped(init, parse).Err? {
      GroupedFirstError(init, parse);
      var k :| 0 <= k < |init| && AllParse(init[..k], parse) && parse(init[k]) == Err(Grouped(init, parse).error);
      assert init[..k] == paths[..k] && init[k] == paths[k];
    } else {
      GroupedOk(init, parse);
    }
  }

  /** Every group holds, in input order, exactly the paths whose parts name it. */
  lemma {:induction false} GroupedLists(paths: seq<string>, parse: Parser, telescope: string, lsf: string)
    requires Grouped(paths, parse).Ok?
    ensures Listed(Grouped(paths, parse).value, telescope, lsf) == Selected(paths, parse, telescope, lsf)
  {
    if paths != [] {
      var init := paths[..|paths| - 1];
      GroupedLists(init, parse, telescope, lsf);
      AddPathListed(Grouped(init, parse).value, parse(paths[|paths| - 1]).value, paths[|paths| - 1], telescope, lsf);
    }
  }

  /** A telescope has a group exactly when some path names it. */
  lemma {:induction false} GroupedTelescopes(paths: seq<string>, parse: Parser, telescope: string)
    requires Grouped(paths, parse).Ok?
    ensures AllParse(paths, parse)
    ensures telescope in Grouped(paths, parse).value.grouped <==>
      exists k :: 0 <= k < |paths| && parse(paths[k]).value.telescope == telescope
  {
    GroupedOk(paths, parse);
    if paths != [] {
      var init := paths[..|paths| - 1];
      GroupedTelescopes(init, parse, telescope);
      assert forall k :: 0 <= k < |init| ==> init[k] == paths[k];
    }
  }

  /** An LSF has a group under a telescope exactly when some path names both. */
  lemma {:induction false} GroupedKeys(paths: seq<string>, parse: Parser, telescope: string, lsf: string)
    requires Grouped(paths, parse).Ok?
    ensures AllParse(paths, parse)
    ensures (telescope in Grouped(paths, parse).value.grouped && lsf in Grouped(paths, parse).value.grouped[telescope]) <==>
      exists k :: 0 <= k < |paths| && parse(paths[k]).value.telescope == telescope && parse(paths[k]).value.lsf == lsf
  {
    GroupedOk(paths, parse);
    if paths != [] {
      var init := paths[..|paths| - 1];
      GroupedKeys(init, parse, telescope, lsf);
      AddPathListed(Grouped(init, parse).value, parse(paths[|paths| - 1]).value, paths[|paths| - 1], telescope, lsf);
      assert forall k :: 0 <= k < |init| ==> init[k] == paths[k];
    }
  }

  /** `all_lsfs` holds exactly the LSFs the paths name. */
  lemma {:induction false} GroupedLsfs(paths: seq<string>, parse: Parser, lsf: string)
    requires Grouped(paths, parse).Ok?
    ensures AllParse(paths, parse)
    ensures lsf in Grouped(paths, parse).value.lsfs <==> exists k :: 0 <= k < |paths| && parse(paths[k]).value.lsf == lsf
  {
    GroupedOk(paths, parse);
    if paths != [] {
      var init := paths[..|paths| - 1];
      GroupedLsfs(init, parse, lsf);
      assert forall k :: 0 <= k < |init| ==> init[k] == paths[k];
    }
  }

  // ---------------------------------------------------------------------------
  // `yield_suitable_grids`

  /** One item of `grid_info`: a header path, its parsed header, and the grid's lower and upper limits. */
  datatype Grid = Grid(path: string, meta: HeaderInfo, lower: seq<real>, upper: seq<real>)

  /** The initial guess `(metals, logg, teff)` of an observation. */
  datatype Point = Point(metals: real, logg: real, teff: real)

  /** `limits[-3:]` */
  function LastThree(limits: seq<real>): (r: seq<real>)
    ensures |r| == if |limits| >= 3 then 3 else |limits|
  {
    if |limits| >= 3 then limits[|limits| - 3..] else limits
  }

  /** Whether a limit array broadcasts against the three-element point: one value, or three. */
  predicate Broadcasts(b: seq<real>) {
    |b| == 1 || |b| == 3
  }

  /** The limit a broadcast array sets on the `i`-th coordinate. */
  function Component(b: seq<real>, i: nat): real
    requires Broadcasts(b) && i < 3
  {
    if |b| == 1 then b[0] else b[i]
  }

  /** `np.all(point >= b)` */
  predicate AtLeast(p: Point, b: seq<real>)
    requires Broadcasts(b)
  {
    p.metals >= Component(b, 0) && p.logg >= Component(b, 1) && p.teff >= Component(b, 2)
  }

  /** `np.all(point <= b)` */
  predicate AtMost(p: Point, b: seq<real>)
    requires Broadcasts(b)
  {
    p.metals <= Component(b, 0) && p.logg <= Component(b, 1) && p.teff <= Component(b, 2)
  }

  /**
    `np.all(point >= lower[-3:]) and np.all(point <= upper[-3:])`. A limit
    array that does not broadcast (none or two values left) raises
    ValueError, the upper one only when the lower test passed.
   */
  function Within(p: Point, lower: seq<real>, upper: seq<real>): (r: Result<bool, PyError>)
    ensures r.Err? ==> r.error == ValueError
    ensures r.Err? <==> !Broadcasts(LastThree(lower)) || (AtLeast(p, LastThree(lower)) && !Broadcasts(LastThree(upper)))
    ensures r.Ok? ==>
      (r.value <==> AtLeast(p, LastThree(lower)) && Broadcasts(LastThree(upper)) && AtMost(p, LastThree(upper)))
    ensures r.Ok? && |lower| >= 3 && |upper| >= 3 ==>
      (r.value <==>
        && lower[|lower| - 3] <= p.metals <= upper[|upper| - 3]
        && lower[|lower| - 2] <= p.logg <= upper[|upper| - 2]
        && lower[|lower| - 1] <= p.teff <= upper[|upper| - 1])
    ensures r.Ok? && |lower| == 1 && |upper| == 1 ==>
      (r.value <==>
        && lower[0] <= p.metals <= upper[0] && lower[0] <= p.logg <= upper[0] && lower[0] <= p.teff <= upper[0])
  {
    var lo, hi := LastThree(lower), LastThree(upper);
    if !Broadcasts(lo) then Err(ValueError)
    else if !AtLeast(p, lo) then Ok(false)
    else if !Broadcasts(hi) then Err(ValueError)
    else Ok(AtMost(p, hi))
  }

  /**
    Whether a grid's LSF and telescope suit the observation: its LSF is the
    fibre's grid or a "combo" LSF, and its telescope model is `telescope`.
   */
  predicate Matches(meta: HeaderInfo, fibre: int, telescope: string) {
    (LsfGridName(fibre) == Some(meta.lsf) || "combo" <= meta.lsf) && telescope == meta.telescope
  }

  /** A grid is yielded when it matches and the point lies within its limits. */
  predicate Fits(g: Grid, fibre: int, p: Point, telescope: string) {
    Matches(g.meta, fibre, telescope) && Within(p, g.lower, g.upper) == Ok(true)
  }

  /** The item a grid yields. */
  function Item(g: Grid): (string, HeaderInfo) {
    (g.path, g.meta)
  }

  /** What the generator delivers: the items it yields, then the error it raises, if any. */
  datatype Yielded = Yielded(items: seq<(string, HeaderInfo)>, error: Option<PyError>)

  /** `yield_suitable_grids(grid_info, mean_fiber, teff, logg, metals, telescope)`, with the fibre already rounded. */
  function Suitable(grids: seq<Grid>, fibre: int, p: Point, telescope: string): Yielded
  {
    if grids == [] then Yielded([], None)
    else
      var y := Suitable(grids[..|grids| - 1], fibre, p, telescope);
      var g := grids[|grids| - 1];
      if y.error.Some? || !Matches(g.meta, fibre, telescope) then y
      else
        match Within(p, g.lower, g.upper)
        case Err(e) => Yielded(y.items, Some(e))
        case Ok(inside) => if inside then Yielded(y.items + [Item(g)], None) else y
  }

  /** The loop of `yield_suitable_grids`. */
  method YieldSuitableGrids(grids: seq<Grid>, fibre: int, teff: real, logg: real, metals: real, telescope: string)
    returns (items: seq<(string, HeaderInfo)>, error: Option<PyError>)
    ensures Yielded(items, error) == Suitable(grids, fibre, Point(metals, logg, teff), telescope)
  {
    var p := Point(metals, logg, teff);
    items := [];
    var i := 0;
    while i < |grids|
      invariant 0 <= i <= |grids|
      invariant Suitable(grids[..i], fibre, p, telescope) == Yielded(items, None)
    {
      assert grids[..i + 1][..i] == grids[..i];
      var g := grids[i];
      if !Matches(g.meta, fibre, telescope) {
        i := i + 1;
        continue;
      }
      var inside := Within(p, g.lower, g.upper);
      if inside.Err? {
        SuitableStuck(grids, fibre, p, telescope, i + 1);
        return items, Some(inside.error);
      }
      if inside.value {
        items := items + [Item(g)];
      }
      i := i + 1;
    }
    assert grids[..i] == grids;
    error := None;
  }

  /** Once the generator has raised, later grids change nothing. */
  lemma {:induction false} SuitableStuck(grids: seq<Grid>, fibre: int, p: Point, telescope: string, n: nat)
    requires n <= |grids| && Suitable(grids[..n], fibre, p, telescope).error.Some?
    ensures Suitable(grids, fibre, p, telescope) == Suitable(grids[..n], fibre, p, telescope)
    decreases |grids| - n
  {
    if n < |grids| {
      assert grids[..n + 1][..n] == grids[..n];
      SuitableStuck(grids, fibre, p, telescope, n + 1);
    } else {
      assert grids[..n] == grids;
    }
  }

  /**
    The generator raises exactly when some grid that matches has limits that
    do not broadcast where they are compared, and then raises ValueError.
   */
  lemma {:induction false} SuitableFails(grids: seq<Grid>, fibre: int, p: Point, telescope: string)
    ensures Suitable(grids, fibre, p, telescope).error.Some? <==>
      exists k :: 0 <= k < |grids| && Matches(grids[k].meta, fibre, telescope) && Within(p, grids[k].lower, grids[k].upper).Err?
    ensures Suitable(grids, fibre, p, telescope).error.Some? ==> Suitable(grids, fibre, p, telescope).error == Some(ValueError)
  {
    if grids != [] {
      var init := grids[..|grids| - 1];
      SuitableFails(init, fibre, p, telescope);
      assert forall k :: 0 <= k < |init| ==> init[k] == grids[k];
    }
  }

  /** Without an error, the last grid adds its item exactly when it fits. */
  lemma SuitableLast(grids: seq<Grid>, fibre: int, p: Point, telescope: string)
    requires grids != [] && Suitable(grids, fibre, p, telescope).error.None?
    ensures var part := Suitable(grids[..|grids| - 1], fibre, p, telescope);
      && part.error.None?
      && Suitable(grids, fibre, p, telescope).items ==
        if Fits(grids[|grids| - 1], fibre, p, telescope) then part.items + [Item(grids[|grids| - 1])] else part.items
  {
  }

  /**
    Without an error, the items are those of the fitting grids, in the order
    of `grid_info`: `idx` lists the positions of the grids yielded, in
    increasing order, and every grid that fits is among them.
   */
  lemma SuitableIndices(grids: seq<Grid>, fibre: int, p: Point, telescope: string) returns (idx: seq<nat>)
    requires Suitable(grids, fibre, p, telescope).error.None?
    ensures |idx| == |Suitable(grids, fibre, p, telescope).items|
    ensures forall j :: 0 <= j < |idx| ==>
      idx[j] < |grids| && Fits(grids[idx[j]], fibre, p, telescope) && Suitable(grids, fibre, p, telescope).items[j] == Item(grids[idx[j]])
    ensures forall j, j' :: 0 <= j < j' < |idx| ==> idx[j] < idx[j']
    ensures forall k :: 0 <= k < |grids| && Fits(grids[k], fibre, p, telescope) ==> k in idx
  {
    var keep := FitsWith(fibre, p, telescope);
    SuitableFiltered(grids, fibre, p, telescope);
    idx := FilteredIndices(grids, keep);
  }

  /** `Fits` as a function value. */
  function FitsWith(fibre: int, p: Point, telescope: string): Grid -> bool {
    (g: Grid) => Fits(g, fibre, p, telescope)
  }

  /** The items of the grids that `keep` accepts, in order. */
  function Filtered(grids: seq<Grid>, keep: Grid -> bool): seq<(string, HeaderInfo)> {
    if grids == [] then []
    else
      var g := grids[|grids| - 1];
      Filtered(grids[..|grids| - 1], keep) + if keep(g) then [Item(g)] else []
  }

  /** Without an error, the generator yields the items of exactly the grids that fit. */
  lemma {:induction false} SuitableFiltered(grids: seq<Grid>, fibre: int, p: Point, telescope: string)
    requires Suitable(grids, fibre, p, telescope).error.None?
    ensures Suitable(grids, fibre, p, telescope).items == Filtered(grids, FitsWith(fibre, p, telescope))
  {
    if grids != [] {
      SuitableLast(grids, fibre, p, telescope);
      SuitableFiltered(grids[..|grids| - 1], fibre, p, telescope);
    }
  }

  /** The positions of the grids that `keep` accepts, in order. */
  function Positions(grids: seq<Grid>, keep: Grid -> bool): seq<nat> {
    if grids == [] then []
    else
      var n := |grids| - 1;
      Positions(grids[..n], keep) + if keep(grids[n]) then [n] else []
  }

  /** The positions of the accepted grids, increasing, with every accepted grid among them. */
  lemma FilteredIndices(grids: seq<Grid>, keep: Grid -> bool) returns (idx: seq<nat>)
    ensures |idx| == |Filtered(grids, keep)|
    ensures forall j :: 0 <= j < |idx| ==>
      idx[j] < |grids| && keep(grids[idx[j]]) && Filtered(grids, keep)[j] == Item(grids[idx[j]])
    ensures forall j, j' :: 0 <= j < j' < |idx| ==> idx[j] < idx[j']
    ensures forall k :: 0 <= k < |grids| && keep(grids[k]) ==> k in idx
  {
    idx := Positions(grids, keep);
    PositionsItems(grids, keep);
    PositionsIncreasing(grids, keep);
    PositionsCover(grids, keep);
  }

  /** Each position holds an accepted grid, whose item is at the same place in `Filtered`. */
  lemma {:induction false} PositionsItems(grids: seq<Grid>, keep: Grid -> bool)
    ensures |Positions(grids, keep)| == |Filtered(grids, keep)|
    ensures forall j :: 0 <= j < |Positions(grids, keep)| ==>
      var k := Positions(grids, keep)[j];
      k < |grids| && keep(grids[k]) && Filtered(grids, keep)[j] == Item(grids[k])
  {
    if grids != [] {
      var n := |grids| - 1;
      var init := grids[..n];
      PositionsItems(init, keep);
      var pos, part := Positions(init, keep), Filtered(init, keep);
      forall j | 0 <= j < |pos| ensures Positions(grids, keep)[j] == pos[j] && Filtered(grids, keep)[j] == part[j] {
      }
      forall j | 0 <= j < |pos| ensures init[pos[j]] == grids[pos[j]] {
      }
    }
  }

  /** Positions increase. */
  lemma {:induction false} PositionsIncreasing(grids: seq<Grid>, keep: Grid -> bool)
    ensures forall j :: 0 <= j < |Positions(grids, keep)| ==> Positions(grids, keep)[j] < |grids|
    ensures forall j, j' :: 0 <= j < j' < |Positions(grids, keep)| ==> Positions(grids, keep)[j] < Positions(grids, keep)[j']
  {
    if grids != [] {
      var n := |grids| - 1;
      PositionsIncreasing(grids[..n], keep);
      var pos := Positions(grids[..n], keep);
      assert Positions(grids, keep) == pos + if keep(grids[n]) then [n] else [];
    }
  }

  /** Every accepted grid's position is listed. */
  lemma {:induction false} PositionsCover(grids: seq<Grid>, keep: Grid -> bool)
    ensures forall k :: 0 <= k < |grids| && keep(grids[k]) ==> k in Positions(grids, keep)
  {
    if grids != [] {
      var n := |grids| - 1;
      var init := grids[..n];
      PositionsCover(init, keep);
      var pos := Positions(init, keep);
      assert Positions(grids, keep) == pos + if keep(grids[n]) then [n] else [];
      forall k | 0 <= k < |grids| && keep(grids[k]) ensures k in Positions(grids, keep) {
        if k < n {
          assert init[k] == grids[k];
        }
      }
    }
  }

  /** A fibre off the slit has no LSF grid, so only the "combo" grids can be yielded. */
  lemma OffSlitOnlyCombo(grids: seq<Grid>, fibre: int, p: Point, telescope: string, k: nat)
    requires fibre < 1 || fibre > 300
    requires k < |grids| && Fits(grids[k], fibre, p, telescope)
    ensures "combo" <= grids[k].meta.lsf
  {
  }
}
