/**
  The parameter resolver of an executable task (`ExecutableTask.parse_parameters`):
  from the declared parameters and the supplied keyword arguments it infers how
  many sub-units of work the task bundles, and which parameters are sliced one
  element per sub-unit.
 */
module Parameters {
  import opened Wrappers
  import opened Values

  /** `Parameter`, `TupleParameter` or `DictParameter`. */
  datatype ParameterClass = PlainParameter | TupleParameter | DictParameter

  /** A declared parameter; `default` is `None` when the declaration has no `default` attribute. */
  datatype Parameter = Parameter(cls: ParameterClass, bundled: bool, default: Option<Value>)

  /** `isinstance(parameter, (TupleParameter, DictParameter))` */
  predicate IsContainer(p: Parameter) {
    p.cls != PlainParameter
  }

  /**
    The declared parameters of a task class, in the order reflection lists them
    (attribute name order), each under its attribute name.
   */
  type Schema = seq<(string, Parameter)>

  predicate DistinctNames(schema: Schema) {
    forall j, k :: 0 <= j < k < |schema| ==> schema[j].0 != schema[k].0
  }

  function Names(schema: Schema): (names: set<string>)
    ensures forall n :: n in names <==> exists k :: 0 <= k < |schema| && schema[k].0 == n
  {
    if schema == [] then {} else {schema[0].0} + Names(schema[1..])
  }

  /** A parameter's value, whether it came from the keywords or the default, and its length. */
  datatype Bound = Bound(parameter: Parameter, value: Value, isDefault: bool, length: nat)

  /** One entry of the resolution plan: `(parameter, value, default, length, indexed)`. */
  datatype Resolved = Resolved(parameter: Parameter, value: Value, isDefault: bool, length: nat, indexed: bool)

  datatype Resolution = Resolution(bundleSize: nat, parameters: seq<(string, Resolved)>)

  datatype ParseError =
    | MissingParameters(names: seq<string>)
    | UnexpectedKeywords(keywords: set<string>)
    | BundledNotSingle(name: string, length: nat)
    | AmbiguousBundleSize(lengths: seq<(string, nat)>)

  /** A declared parameter that was neither supplied nor has a default. */
  predicate IsMissing(entry: (string, Parameter), kwargs: map<string, Value>) {
    entry.0 !in kwargs && entry.1.default.None?
  }

  /** The names of the missing parameters, in schema order (attribute-name order). */
  function Missing(schema: Schema, kwargs: map<string, Value>): (names: seq<string>)
    ensures forall n :: n in names <==> exists k :: 0 <= k < |schema| && schema[k].0 == n && IsMissing(schema[k], kwargs)
  {
    if schema == [] then []
    else (if IsMissing(schema[0], kwargs) then [schema[0].0] else []) + Missing(schema[1..], kwargs)
  }

  lemma {:induction false} NoneMissing(schema: Schema, kwargs: map<string, Value>)
    ensures Missing(schema, kwargs) == [] <==> forall k :: 0 <= k < |schema| ==> !IsMissing(schema[k], kwargs)
  {
    if schema != [] {
      NoneMissing(schema[1..], kwargs);
      if Missing(schema, kwargs) == [] {
        assert forall k :: 1 <= k < |schema| ==> schema[k] == schema[1..][k - 1];
      }
    }
  }

  /** The supplied value, else the default. */
  function Bind(entry: (string, Parameter), kwargs: map<string, Value>): Bound
    requires !IsMissing(entry, kwargs)
  {
    var value := if entry.0 in kwargs then kwargs[entry.0] else entry.1.default.value;
    Bound(entry.1, value, entry.0 !in kwargs, LengthOf(value))
  }

  function BindAll(schema: Schema, kwargs: map<string, Value>): (bound: seq<(string, Bound)>)
    requires Missing(schema, kwargs) == []
    ensures |bound| == |schema|
    ensures forall k :: 0 <= k < |schema| ==> !IsMissing(schema[k], kwargs) && bound[k] == (schema[k].0, Bind(schema[k], kwargs))
  {
    if schema == [] then []
    else [(schema[0].0, Bind(schema[0], kwargs))] + BindAll(schema[1..], kwargs)
  }

  /** A bundled plain parameter whose value is a non-string iterable of more than one element. */
  predicate IsBundledConflict(b: Bound) {
    b.parameter.bundled && !IsContainer(b.parameter) && !b.value.VStr? && IsIterable(b.value) && b.length > 1
  }

  /** The first bound parameter, in schema order (attribute-name order), that is a bundled conflict. */
  function FirstConflict(bound: seq<(string, Bound)>): (r: Option<nat>)
    ensures r.Some? ==> r.value < |bound| && IsBundledConflict(bound[r.value].1)
    ensures r.Some? ==> forall j :: 0 <= j < r.value ==> !IsBundledConflict(bound[j].1)
    ensures r.None? ==> forall j :: 0 <= j < |bound| ==> !IsBundledConflict(bound[j].1)
  {
    if bound == [] then None
    else if IsBundledConflict(bound[0].1) then Some(0)
    else match FirstConflict(bound[1..])
      case None => None
      case Some(k) => Some(k + 1)
  }

  /** Only non-bundled, non-defaulted plain parameters decide the bundle size. */
  predicate IsRelevant(b: Bound) {
    !b.parameter.bundled && !b.isDefault && !IsContainer(b.parameter)
  }

  /** `relevant_lengths`, as a name -> length list in schema order (attribute-name order). */
  function RelevantLengths(bound: seq<(string, Bound)>): (lengths: seq<(string, nat)>)
    ensures forall n, l :: (n, l) in lengths <==> exists k :: 0 <= k < |bound| && bound[k].0 == n && IsRelevant(bound[k].1) && bound[k].1.length == l
  {
    if bound == [] then []
    else
      var rest := RelevantLengths(bound[1..]);
      assert forall n, l :: (n, l) in rest <==> exists k :: 1 <= k < |bound| && bound[k].0 == n && IsRelevant(bound[k].1) && bound[k].1.length == l by {
        forall n, l | (n, l) in rest ensures exists k :: 1 <= k < |bound| && bound[k].0 == n && IsRelevant(bound[k].1) && bound[k].1.length == l {
          var k :| 0 <= k < |bound[1..]| && bound[1..][k].0 == n && IsRelevant(bound[1..][k].1) && bound[1..][k].1.length == l;
          assert bound[k + 1] == bound[1..][k];
        }
      }
      (if IsRelevant(bound[0].1) then [(bound[0].0, bound[0].1.length)] else []) + rest
  }

  /** `set(relevant_lengths.values()).difference({1})` */
  function LengthsOtherThanOne(lengths: seq<(string, nat)>): (s: set<nat>)
    ensures forall l :: l in s <==> l != 1 && exists k :: 0 <= k < |lengths| && lengths[k].1 == l
  {
    set k | 0 <= k < |lengths| && lengths[k].1 != 1 :: lengths[k].1
  }

  /**
    Scans the relevant lengths, remembering the one length other than 1 seen so
    far; `Err` as soon as a second, different one appears.
   */
  function ScanLengths(lengths: seq<(string, nat)>, seen: Option<nat>): Result<Option<nat>, ()>
    requires seen.Some? ==> seen.value != 1
  {
    if lengths == [] then Ok(seen)
    else
      var l := lengths[0].1;
      if l == 1 || seen == Some(l) then ScanLengths(lengths[1..], seen)
      else if seen.None? then ScanLengths(lengths[1..], Some(l))
      else Err(())
  }

  /** The bundle size: 1 when every relevant length is 1, their common other value otherwise. */
  function BundleSize(lengths: seq<(string, nat)>): Result<nat, ()> {
    match ScanLengths(lengths, None)
    case Err(_) => Err(())
    case Ok(None) => Ok(1)
    case Ok(Some(n)) => Ok(n)
  }

  /** The `indexed` flag of one parameter. */
  predicate IsIndexed(b: Bound, bundleSize: nat) {
    bundleSize > 1 && b.length == bundleSize && !b.isDefault && !b.parameter.bundled && !IsContainer(b.parameter)
  }

  function ResolveAll(bound: seq<(string, Bound)>, bundleSize: nat): (resolved: seq<(string, Resolved)>)
    ensures |resolved| == |bound|
    ensures forall k :: 0 <= k < |bound| ==>
      var b := bound[k].1;
      resolved[k] == (bound[k].0, Resolved(b.parameter, b.value, b.isDefault, b.length, IsIndexed(b, bundleSize)))
  {
    if bound == [] then []
    else
      var b := bound[0].1;
      [(bound[0].0, Resolved(b.parameter, b.value, b.isDefault, b.length, IsIndexed(b, bundleSize)))]
        + ResolveAll(bound[1..], bundleSize)
  }

  /** The bundle size and the plan, once no parameter is missing and none is unexpected. */
  function ResolveBound(bound: seq<(string, Bound)>): (r: Result<Resolution, ParseError>)
    ensures r.Ok? ==> r.value.parameters == ResolveAll(bound, r.value.bundleSize)
    ensures r.Err? ==> r.error.BundledNotSingle? || r.error.AmbiguousBundleSize?
  {
    match FirstConflict(bound)
    case Some(k) => Err(BundledNotSingle(bound[k].0, bound[k].1.length))
    case None =>
      var lengths := RelevantLengths(bound);
      match BundleSize(lengths)
      case Err(_) => Err(AmbiguousBundleSize(lengths))
      case Ok(n) => Ok(Resolution(n, ResolveAll(bound, n)))
  }

  /** `ExecutableTask.parse_parameters(**kwargs)` */
  function ParseParameters(schema: Schema, kwargs: map<string, Value>): (r: Result<Resolution, ParseError>)
    requires DistinctNames(schema)
    ensures r.Ok? ==> |r.value.parameters| == |schema|
    ensures r.Ok? ==> forall k :: 0 <= k < |schema| ==>
      && !IsMissing(schema[k], kwargs)
      && var b := Bind(schema[k], kwargs);
      && r.value.parameters[k] == (schema[k].0, Resolved(b.parameter, b.value, b.isDefault, b.length, IsIndexed(b, r.value.bundleSize)))
  {
    var missing := Missing(schema, kwargs);
    if missing != [] then Err(MissingParameters(missing))
    else
      var unexpected := kwargs.Keys - Names(schema);
      if unexpected != {} then Err(UnexpectedKeywords(unexpected))
      else ResolveBound(BindAll(schema, kwargs))
  }

  /** Each plan entry carries the supplied value, or the default when none was supplied, and its length. */
  lemma BoundValues(schema: Schema, kwargs: map<string, Value>)
    requires DistinctNames(schema)
    requires ParseParameters(schema, kwargs).Ok?
    ensures forall k :: 0 <= k < |schema| ==>
      var res := ParseParameters(schema, kwargs).value.parameters[k].1;
      && res.parameter == schema[k].1
      && res.isDefault == (schema[k].0 !in kwargs)
      && (schema[k].0 in kwargs ==> res.value == kwargs[schema[k].0])
      && (schema[k].0 !in kwargs ==> schema[k].1.default == Some(res.value))
      && res.length == LengthOf(res.value)
  {
  }

  // ---------------------------------------------------------------------------
  // The bundle-size rule, stated on the set of relevant lengths.

  lemma {:induction false} ScanLengthsSet(lengths: seq<(string, nat)>, seen: Option<nat>)
    requires seen.Some? ==> seen.value != 1
    ensures var s := LengthsOtherThanOne(lengths) + (if seen.Some? then {seen.value} else {});
      match ScanLengths(lengths, seen)
      case Err(_) => exists a, b :: a in s && b in s && a != b
      case Ok(None) => s == {}
      case Ok(Some(n)) => s == {n}
  {
    if lengths != [] {
      var l := lengths[0].1;
      var rest := lengths[1..];
      assert LengthsOtherThanOne(lengths) == (if l == 1 then {} else {l}) + LengthsOtherThanOne(rest) by {
        forall x ensures x in LengthsOtherThanOne(lengths) <==> x in (if l == 1 then {} else {l}) + LengthsOtherThanOne(rest) {
          if x in LengthsOtherThanOne(lengths) && x != l {
            var k :| 0 <= k < |lengths| && lengths[k].1 == x;
            assert rest[k - 1] == lengths[k];
          }
          if x in LengthsOtherThanOne(rest) {
            var k :| 0 <= k < |rest| && rest[k].1 == x;
            assert lengths[k + 1] == rest[k];
          }
        }
      }
      if l == 1 || seen == Some(l) {
        ScanLengthsSet(rest, seen);
      } else if seen.None? {
        ScanLengthsSet(rest, Some(l));
      } else {
        assert seen.value in LengthsOtherThanOne(lengths) + {seen.value};
      }
    }
  }

  /**
    The bundle size is 1 when no relevant length other than 1 exists, that
    length when exactly one exists, and an error when two or more do.
   */
  lemma BundleSizeRule(lengths: seq<(string, nat)>)
    ensures var s := LengthsOtherThanOne(lengths);
      && (s == {} ==> BundleSize(lengths) == Ok(1))
      && (BundleSize(lengths).Ok? && s != {} ==> s == {BundleSize(lengths).value})
      && (BundleSize(lengths).Err? <==> exists a, b :: a in s && b in s && a != b)
  {
    ScanLengthsSet(lengths, None);
  }

  // ---------------------------------------------------------------------------
  // The error cases, in the order the resolver checks them.

  /** Every missing parameter is reported, all together, before anything else is checked. */
  lemma MissingReported(schema: Schema, kwargs: map<string, Value>)
    requires DistinctNames(schema)
    ensures (exists k :: 0 <= k < |schema| && IsMissing(schema[k], kwargs))
      <==> ParseParameters(schema, kwargs).Err? && ParseParameters(schema, kwargs).error.MissingParameters?
    ensures forall names :: ParseParameters(schema, kwargs) == Err(MissingParameters(names)) ==>
      forall n :: n in names <==> exists k :: 0 <= k < |schema| && schema[k].0 == n && n !in kwargs && schema[k].1.default.None?
  {
    NoneMissing(schema, kwargs);
  }

  /** With nothing missing, every supplied keyword that is not declared is reported, all together. */
  lemma UnexpectedReported(schema: Schema, kwargs: map<string, Value>)
    requires DistinctNames(schema)
    requires forall k :: 0 <= k < |schema| ==> !IsMissing(schema[k], kwargs)
    ensures (exists n :: n in kwargs && n !in Names(schema))
      <==> ParseParameters(schema, kwargs).Err? && ParseParameters(schema, kwargs).error.UnexpectedKeywords?
    ensures forall u :: ParseParameters(schema, kwargs) == Err(UnexpectedKeywords(u)) ==>
      forall n :: n in u <==> n in kwargs && n !in Names(schema)
  {
    NoneMissing(schema, kwargs);
    if exists n :: n in kwargs && n !in Names(schema) {
      var n :| n in kwargs && n !in Names(schema);
      assert n in kwargs.Keys - Names(schema);
    }
  }

  /** With nothing missing and nothing unexpected, the outcome is decided by the bound values alone. */
  lemma ParseOfBound(schema: Schema, kwargs: map<string, Value>)
    requires DistinctNames(schema)
    requires forall k :: 0 <= k < |schema| ==> !IsMissing(schema[k], kwargs)
    requires kwargs.Keys <= Names(schema)
    ensures Missing(schema, kwargs) == []
    ensures ParseParameters(schema, kwargs) == ResolveBound(BindAll(schema, kwargs))
  {
    NoneMissing(schema, kwargs);
    assert kwargs.Keys - Names(schema) == {};
  }

  /**
    With every declared parameter given and no stray keyword, the first bundled
    plain parameter holding a non-string iterable of more than one element is
    reported, defaulted or not.
   */
  lemma BundledConflictReported(schema: Schema, kwargs: map<string, Value>)
    requires DistinctNames(schema)
    requires forall k :: 0 <= k < |schema| ==> !IsMissing(schema[k], kwargs)
    requires kwargs.Keys <= Names(schema)
    ensures (exists k :: 0 <= k < |schema| && IsBundledConflict(Bind(schema[k], kwargs)))
      <==> ParseParameters(schema, kwargs).Err? && ParseParameters(schema, kwargs).error.BundledNotSingle?
  {
    ParseOfBound(schema, kwargs);
    var bound := BindAll(schema, kwargs);
    ConflictOfBound(bound);
    if FirstConflict(bound).Some? {
      var c := FirstConflict(bound).value;
      assert IsBundledConflict(Bind(schema[c], kwargs));
    }
  }

  /** Of several bundled conflicts, the first in schema order (attribute-name order) is the one reported. */
  lemma FirstBundledConflictReported(schema: Schema, kwargs: map<string, Value>, k: nat)
    requires DistinctNames(schema)
    requires forall k :: 0 <= k < |schema| ==> !IsMissing(schema[k], kwargs)
    requires kwargs.Keys <= Names(schema)
    requires k < |schema| && IsBundledConflict(Bind(schema[k], kwargs))
    requires forall j :: 0 <= j < k ==> !IsBundledConflict(Bind(schema[j], kwargs))
    ensures ParseParameters(schema, kwargs) == Err(BundledNotSingle(schema[k].0, Bind(schema[k], kwargs).length))
  {
    ParseOfBound(schema, kwargs);
    var bound := BindAll(schema, kwargs);
    assert bound[k] == (schema[k].0, Bind(schema[k], kwargs));
    forall j | 0 <= j < k ensures !IsBundledConflict(bound[j].1) {
      assert bound[j].1 == Bind(schema[j], kwargs);
    }
    FirstConflictAt(bound, k);
  }

  /** A conflict with none before it is the one the resolver reports. */
  lemma FirstConflictAt(bound: seq<(string, Bound)>, k: nat)
    requires k < |bound| && IsBundledConflict(bound[k].1)
    requires forall j :: 0 <= j < k ==> !IsBundledConflict(bound[j].1)
    ensures ResolveBound(bound) == Err(BundledNotSingle(bound[k].0, bound[k].1.length))
  {
    assert FirstConflict(bound).Some?;
  }

  /** Without conflicts the resolver's outcome is that of the bundle size. */
  lemma ResolveWithoutConflict(bound: seq<(string, Bound)>)
    requires forall k :: 0 <= k < |bound| ==> !IsBundledConflict(bound[k].1)
    ensures var b := BundleSize(RelevantLengths(bound));
      && (b.Err? ==> ResolveBound(bound) == Err(AmbiguousBundleSize(RelevantLengths(bound))))
      && (b.Ok? ==> ResolveBound(bound).Ok? && ResolveBound(bound).value.bundleSize == b.value)
  {
    assert FirstConflict(bound).None?;
  }

  /** The resolver's conflict outcome, stated on the bound values. */
  lemma ConflictOfBound(bound: seq<(string, Bound)>)
    ensures FirstConflict(bound).Some? ==>
      ResolveBound(bound) == Err(BundledNotSingle(bound[FirstConflict(bound).value].0, bound[FirstConflict(bound).value].1.length))
    ensures FirstConflict(bound).None? ==> !(ResolveBound(bound).Err? && ResolveBound(bound).error.BundledNotSingle?)
  {
  }

  /**
    The lengths other than 1 of the parameters that decide the bundle size:
    `set(relevant_lengths.values()).difference({1})`.
   */
  function DecidingLengths(schema: Schema, kwargs: map<string, Value>): set<nat>
    requires forall k :: 0 <= k < |schema| ==> !IsMissing(schema[k], kwargs)
  {
    set k | 0 <= k < |schema| && IsRelevant(Bind(schema[k], kwargs)) && Bind(schema[k], kwargs).length != 1
      :: Bind(schema[k], kwargs).length
  }

  lemma DecidingLengthsScanned(schema: Schema, kwargs: map<string, Value>)
    requires forall k :: 0 <= k < |schema| ==> !IsMissing(schema[k], kwargs)
    ensures Missing(schema, kwargs) == []
    ensures LengthsOtherThanOne(RelevantLengths(BindAll(schema, kwargs))) == DecidingLengths(schema, kwargs)
  {
    NoneMissing(schema, kwargs);
    var bound := BindAll(schema, kwargs);
    var lengths := RelevantLengths(bound);
    var s := DecidingLengths(schema, kwargs);
    forall l ensures l in LengthsOtherThanOne(lengths) <==> l in s {
      if l in LengthsOtherThanOne(lengths) {
        var j :| 0 <= j < |lengths| && lengths[j].1 == l;
        assert lengths[j] in lengths;
        var k :| 0 <= k < |bound| && bound[k].0 == lengths[j].0 && IsRelevant(bound[k].1) && bound[k].1.length == l;
        assert Bind(schema[k], kwargs) == bound[k].1;
      }
      if l in s {
        var k :| 0 <= k < |schema| && IsRelevant(Bind(schema[k], kwargs)) && Bind(schema[k], kwargs).length == l && l != 1;
        assert bound[k].1 == Bind(schema[k], kwargs);
        assert (bound[k].0, l) in lengths;
      }
    }
  }

  /**
    Once no earlier error applies, the bundle size is 1 when every deciding
    parameter has length 1, their one common other length when there is one,
    and an ambiguity is reported exactly when two different lengths other than
    1 occur among them.
   */
  lemma BundleSizeInferred(schema: Schema, kwargs: map<string, Value>)
    requires DistinctNames(schema)
    requires forall k :: 0 <= k < |schema| ==> !IsMissing(schema[k], kwargs)
    requires kwargs.Keys <= Names(schema)
    requires forall k :: 0 <= k < |schema| ==> !IsBundledConflict(Bind(schema[k], kwargs))
    ensures var r := ParseParameters(schema, kwargs);
      var s := DecidingLengths(schema, kwargs);
      && (s == {} ==> r.Ok? && r.value.bundleSize == 1)
      && (r.Ok? && s != {} ==> s == {r.value.bundleSize})
      && (r.Err? <==> exists a, b :: a in s && b in s && a != b)
      && (r.Err? ==> r.error.AmbiguousBundleSize?)
  {
    DecidingLengthsScanned(schema, kwargs);
    ParseOfBound(schema, kwargs);
    var bound := BindAll(schema, kwargs);
    forall k | 0 <= k < |bound| ensures !IsBundledConflict(bound[k].1) {
      assert bound[k].1 == Bind(schema[k], kwargs);
    }
    ResolveWithoutConflict(bound);
    BundleSizeRule(RelevantLengths(bound));
  }

  /**
    A parameter is sliced per sub-unit exactly when the bundle size exceeds 1,
    its length equals the bundle size, and it is supplied, not bundled and
    not a Tuple/DictParameter; so with a bundle size of 1 nothing is sliced.
   */
  lemma IndexedRule(schema: Schema, kwargs: map<string, Value>)
    requires DistinctNames(schema)
    requires ParseParameters(schema, kwargs).Ok?
    ensures var res := ParseParameters(schema, kwargs).value;
      forall k :: 0 <= k < |schema| ==>
        var p := res.parameters[k].1;
        && (p.indexed <==> res.bundleSize > 1 && p.length == res.bundleSize && !p.isDefault
                           && !p.parameter.bundled && !IsContainer(p.parameter))
        && (p.indexed ==> schema[k].0 in kwargs && p.value == kwargs[schema[k].0])
    ensures ParseParameters(schema, kwargs).value.bundleSize == 1 ==>
      forall k :: 0 <= k < |schema| ==> !ParseParameters(schema, kwargs).value.parameters[k].1.indexed
  {
    assert Missing(schema, kwargs) == [];
    var bound := BindAll(schema, kwargs);
    var res := ParseParameters(schema, kwargs).value;
    assert res.parameters == ResolveAll(bound, res.bundleSize);
  }
}
