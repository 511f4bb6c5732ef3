/**
  Data products: the keyword normalisation of `DataProductKeywordsField.adapt`,
  the keyword hash of `DataProduct.adapt_and_hash_kwargs`, the constructor
  that fills in `kwargs_hash`, and `DataProduct.get_or_create` against a
  table of data product rows.

  The md5 digest of the JSON text of the adapted keywords is a parameter
  `hash` of the operations that need it, and so is `repr`, the text Python's
  `str` gives for a float, a list or a dictionary.
 */
module DataProducts {
  import opened Wrappers
  import opened Text
  import opened Values

  /** Keyword arguments in the order the caller gave them. */
  type Keywords = seq<(string, Value)>

  /** The adapted keywords, as stored in the `kwargs` JSON column. */
  type Record = map<string, Value>

  // ---------------------------------------------------------------------------
  // The Python built-ins applied to keyword values.

  /** `int(v)`: truncation toward zero for a float, `int(s)` for a string, TypeError for the rest. */
  function Int(v: Value): (r: Result<int, PyError>)
    ensures r.Err? <==> v.VNone? || v.VList? || v.VDict? || (v.VStr? && ParseInt(v.s).None?)
    ensures r.Err? ==> r.error == (if v.VStr? then ValueError else TypeError)
    ensures v.VInt? ==> r == Ok(v.i)
    ensures v.VReal? && v.r >= 0.0 ==> r.Ok? && r.value as real <= v.r < r.value as real + 1.0
    ensures v.VReal? && v.r < 0.0 ==> r.Ok? && r.value as real - 1.0 < v.r <= r.value as real
  {
    match v
    case VInt(i) => Ok(i)
    case VBool(b) => Ok(if b then 1 else 0)
    case VReal(x) => Ok(if x >= 0.0 then x.Floor else -((-x).Floor))
    case VStr(s) => if ParseInt(s).Some? then Ok(ParseInt(s).value) else Err(ValueError)
    case _ => Err(TypeError)
  }

  /** `str(v)`; `repr` supplies the text of floats, lists and dictionaries. */
  function Str(v: Value, repr: Value -> string): (s: string)
    ensures v.VStr? ==> s == v.s
    ensures v.VInt? ==> ParseInt(s) == Some(v.i)
  {
    match v
    case VStr(t) => t
    case VInt(i) => ParseIntOfIntToString(i); IntToString(i)
    case VBool(b) => if b then "True" else "False"
    case VNone => "None"
    case _ => repr(v)
  }

  // ---------------------------------------------------------------------------
  // `DataProductKeywordsField.adapt`

  /** `key.strip().lower()` */
  function NormKey(key: string): string {
    Lower(Strip(key))
  }

  /** The keys whose values are coerced to `int`. */
  predicate IsIntKey(key: string) {
    key == "mjd" || key == "fiber" || key == "healpix" || key == "fieldid"
  }

  /**
    The `coerce_types` table applied to the value under a normalised key:
    `int` for the apVisit and specFull numbers, `str` for `apred`, a stripped
    `str` for `field`, and the value itself for every other key.
   */
  function Coerce(key: string, v: Value, repr: Value -> string): (r: Result<Value, PyError>)
    ensures IsIntKey(key) ==> r == (if Int(v).Ok? then Ok(VInt(Int(v).value)) else Err(Int(v).error))
    ensures key == "apred" ==> r == Ok(VStr(Str(v, repr)))
    ensures key == "field" ==> r == Ok(VStr(Strip(Str(v, repr))))
    ensures !IsIntKey(key) && key != "apred" && key != "field" ==> r == Ok(v)
  {
    if IsIntKey(key) then
      match Int(v)
      case Ok(i) => Ok(VInt(i))
      case Err(e) => Err(e)
    else if key == "apred" then Ok(VStr(Str(v, repr)))
    else if key == "field" then Ok(VStr(Strip(Str(v, repr))))
    else Ok(v)
  }

  /** `coerce_types` as a function value, for the loop below. */
  function CoerceWith(repr: Value -> string): (string, Value) -> Result<Value, PyError> {
    (key: string, v: Value) => Coerce(key, v, repr)
  }

  /** The keywords with their keys normalised, in order. */
  function Normalise(kwargs: Keywords): (r: Keywords)
    ensures |r| == |kwargs|
    ensures forall i :: 0 <= i < |kwargs| ==> r[i] == (NormKey(kwargs[i].0), kwargs[i].1)
  {
    seq(|kwargs|, i requires 0 <= i < |kwargs| => (NormKey(kwargs[i].0), kwargs[i].1))
  }

  /**
    `adapt(kwargs)`: the keywords processed in order, each stored under its
    normalised key, a later keyword overwriting an earlier one with the same
    normalised key. The first value that `int` refuses raises.
   */
  function Adapted(kwargs: Keywords, repr: Value -> string): Result<Record, PyError> {
    Coerced(Normalise(kwargs), CoerceWith(repr))
  }

  /** The loop of `adapt`, building `coerced` one keyword at a time. */
  method Adapt(kwargs: Keywords, repr: Value -> string) returns (r: Result<Record, PyError>)
    ensures r == Adapted(kwargs, repr)
  {
    var coerce := CoerceWith(repr);
    ghost var pairs := Normalise(kwargs);
    var coerced: Record := map[];
    for i := 0 to |kwargs|
      invariant Coerced(pairs[..i], coerce) == Ok(coerced)
    {
      var k := NormKey(kwargs[i].0);
      assert pairs[i] == (k, kwargs[i].1);
      var w := coerce(k, kwargs[i].1);
      CoercedStep(pairs, coerce, i);
      if w.Err? {
        CoercedStuck(pairs, coerce, i + 1);
        return Err(w.error);
      }
      coerced := coerced[k := w.value];
    }
    assert pairs[..|kwargs|] == pairs;
    return Ok(coerced);
  }

  /** `adapt` succeeds exactly when every value can be coerced under its normalised key. */
  lemma AdaptedOk(kwargs: Keywords, repr: Value -> string)
    ensures Adapted(kwargs, repr).Ok? <==>
      forall i :: 0 <= i < |kwargs| ==> Coerce(NormKey(kwargs[i].0), kwargs[i].1, repr).Ok?
  {
    var pairs := Normalise(kwargs);
    CoercedKeys(pairs, CoerceWith(repr));
    assert forall i :: 0 <= i < |kwargs| ==>
      CoerceWith(repr)(pairs[i].0, pairs[i].1) == Coerce(NormKey(kwargs[i].0), kwargs[i].1, repr);
  }

  /** The keys of the adapted keywords are exactly the normalised input keys. */
  lemma AdaptedKeys(kwargs: Keywords, repr: Value -> string)
    requires Adapted(kwargs, repr).Ok?
    ensures forall key :: key in Adapted(kwargs, repr).value <==> exists i :: 0 <= i < |kwargs| && NormKey(kwargs[i].0) == key
  {
    var pairs := Normalise(kwargs);
    CoercedKeys(pairs, CoerceWith(repr));
    forall key ensures key in Adapted(kwargs, repr).value <==> exists i :: 0 <= i < |kwargs| && NormKey(kwargs[i].0) == key {
      if key in Adapted(kwargs, repr).value {
        var i :| 0 <= i < |pairs| && pairs[i].0 == key;
        assert NormKey(kwargs[i].0) == key;
      }
      if exists i :: 0 <= i < |kwargs| && NormKey(kwargs[i].0) == key {
        var i :| 0 <= i < |kwargs| && NormKey(kwargs[i].0) == key;
        assert pairs[i].0 == key;
      }
    }
  }

  /** Each adapted value is the coercion of the last value given under that normalised key. */
  lemma AdaptedValues(kwargs: Keywords, repr: Value -> string)
    requires Adapted(kwargs, repr).Ok?
    ensures forall key :: key in Adapted(kwargs, repr).value ==>
      && LastWith(Normalise(kwargs), key).Some?
      && Coerce(key, LastWith(Normalise(kwargs), key).value, repr) == Ok(Adapted(kwargs, repr).value[key])
  {
    CoercedValues(Normalise(kwargs), CoerceWith(repr));
  }

  /** Normalising a normalised key changes nothing. */
  lemma NormKeyIdempotent(key: string)
    ensures NormKey(NormKey(key)) == NormKey(key)
  {
    var s := Strip(key);
    LowerEnds(s);
    StripUnchanged(Lower(s));
    LowerIdempotent(s);
  }

  lemma LowerEnds(s: string)
    requires s == [] || (!IsSpace(s[0]) && !IsSpace(s[|s| - 1]))
    ensures var l := Lower(s); l == [] || (!IsSpace(l[0]) && !IsSpace(l[|l| - 1]))
  {
    if s != [] {
      LowerCharSpace(s[0]);
      LowerCharSpace(s[|s| - 1]);
    }
  }

  lemma LowerCharSpace(c: char)
    requires !IsSpace(c)
    ensures !IsSpace(LowerChar(c))
  {
  }

  lemma LowerIdempotent(s: string)
    ensures Lower(Lower(s)) == Lower(s)
  {
  }

  /** A coerced value coerces to itself. */
  lemma CoerceIdempotent(key: string, v: Value, repr: Value -> string)
    requires Coerce(key, v, repr).Ok?
    ensures Coerce(key, Coerce(key, v, repr).value, repr) == Coerce(key, v, repr)
  {
    var w := Coerce(key, v, repr).value;
    if IsIntKey(key) {
      assert w == VInt(Int(v).value) && Int(w) == Ok(w.i);
    } else if key == "apred" {
      assert w == VStr(Str(v, repr)) && Str(w, repr) == w.s;
    } else if key == "field" {
      StripIdempotent(Str(v, repr));
      assert w == VStr(Strip(Str(v, repr))) && Str(w, repr) == w.s;
    }
  }

  /** The keyword arguments listing `m`'s entries once each, in any order. */
  predicate Lists(kwargs: Keywords, m: Record) {
    && (forall i, j :: 0 <= i < j < |kwargs| ==> kwargs[i].0 != kwargs[j].0)
    && (forall i :: 0 <= i < |kwargs| ==> kwargs[i].0 in m && m[kwargs[i].0] == kwargs[i].1)
    && (forall key :: key in m ==> exists i :: 0 <= i < |kwargs| && kwargs[i].0 == key)
  }

  /**
    Adapting keywords that are already adapted gives them back: a data
    product's own `kwargs` column adapts to itself, as a record. (The
    record forgets the order of its entries; the JSON the hash is taken of
    does not.)
   */
  lemma AdaptedFixpoint(kwargs: Keywords, again: Keywords, repr: Value -> string)
    requires Adapted(kwargs, repr).Ok?
    requires Lists(again, Adapted(kwargs, repr).value)
    ensures Adapted(again, repr) == Adapted(kwargs, repr)
  {
    var m := Adapted(kwargs, repr).value;
    var pairs := Normalise(again);
    AdaptedValues(kwargs, repr);
    AdaptedKeys(kwargs, repr);
    forall i | 0 <= i < |pairs|
      ensures pairs[i] == again[i] && CoerceWith(repr)(again[i].0, again[i].1) == Ok(again[i].1)
    {
      var key := again[i].0;
      var j :| 0 <= j < |kwargs| && NormKey(kwargs[j].0) == key;
      NormKeyIdempotent(kwargs[j].0);
      CoerceIdempotent(key, LastWith(Normalise(kwargs), key).value, repr);
    }
    assert pairs == again;
    CoercedSettled(again, CoerceWith(repr));
    ListsMapOf(again, m);
  }

  /**
    Keywords that differ only in the case or surrounding white space of
    their keys adapt, and therefore hash, alike.
   */
  lemma AdaptedNormalises(a: Keywords, b: Keywords, repr: Value -> string)
    requires |a| == |b|
    requires forall i :: 0 <= i < |a| ==> NormKey(a[i].0) == NormKey(b[i].0) && a[i].1 == b[i].1
    ensures Adapted(a, repr) == Adapted(b, repr)
  {
    assert Normalise(a) == Normalise(b);
  }

  // ---------------------------------------------------------------------------
  // The loop of `adapt` for any coercion `f` of already normalised keys.

  /** The pairs stored one after the other, `f` applied to each value. */
  function Coerced(pairs: Keywords, f: (string, Value) -> Result<Value, PyError>): Result<Record, PyError> {
    if pairs == [] then Ok(map[])
    else
      var (key, v) := pairs[|pairs| - 1];
      match Coerced(pairs[..|pairs| - 1], f)
      case Err(e) => Err(e)
      case Ok(coerced) =>
        match f(key, v)
        case Err(e) => Err(e)
        case Ok(w) => Ok(coerced[key := w])
  }

  /** One more keyword on a prefix that coerced: stored under its key, or the error it raises. */
  lemma CoercedStep(pairs: Keywords, f: (string, Value) -> Result<Value, PyError>, i: nat)
    requires i < |pairs| && Coerced(pairs[..i], f).Ok?
    ensures var w := f(pairs[i].0, pairs[i].1);
      Coerced(pairs[..i + 1], f) == if w.Ok? then Ok(Coerced(pairs[..i], f).value[pairs[i].0 := w.value]) else Err(w.error)
  {
    assert pairs[..i + 1][..i] == pairs[..i];
    assert pairs[..i + 1][i] == pairs[i];
  }

  /** Once a prefix fails, the whole fails with the same error. */
  lemma {:induction false} CoercedStuck(pairs: Keywords, f: (string, Value) -> Result<Value, PyError>, n: nat)
    requires n <= |pairs|
    requires Coerced(pairs[..n], f).Err?
    ensures Coerced(pairs, f) == Coerced(pairs[..n], f)
    decreases |pairs| - n
  {
    if n < |pairs| {
      assert pairs[..n + 1][..n] == pairs[..n];
      CoercedStuck(pairs, f, n + 1);
    } else {
      assert pairs[..n] == pairs;
    }
  }

  lemma {:induction false} CoercedKeys(pairs: Keywords, f: (string, Value) -> Result<Value, PyError>)
    ensures Coerced(pairs, f).Ok? <==> forall i :: 0 <= i < |pairs| ==> f(pairs[i].0, pairs[i].1).Ok?
    ensures Coerced(pairs, f).Ok? ==>
      forall key :: key in Coerced(pairs, f).value <==> exists i :: 0 <= i < |pairs| && pairs[i].0 == key
  {
    if pairs != [] {
      var init := pairs[..|pairs| - 1];
      CoercedKeys(init, f);
      assert forall i :: 0 <= i < |init| ==> init[i] == pairs[i];
      if Coerced(pairs, f).Ok? {
        var last := pairs[|pairs| - 1].0;
        forall key | key in Coerced(pairs, f).value
          ensures exists i :: 0 <= i < |pairs| && pairs[i].0 == key
        {
          if key != last {
            var i :| 0 <= i < |init| && init[i].0 == key;
            assert pairs[i].0 == key;
          }
        }
      }
    }
  }

  /** The value of the last pair with key `key`. */
  function LastWith(pairs: Keywords, key: string): Option<Value> {
    if pairs == [] then None
    else if pairs[|pairs| - 1].0 == key then Some(pairs[|pairs| - 1].1)
    else LastWith(pairs[..|pairs| - 1], key)
  }

  lemma {:induction false} CoercedValues(pairs: Keywords, f: (string, Value) -> Result<Value, PyError>)
    requires Coerced(pairs, f).Ok?
    ensures forall key :: key in Coerced(pairs, f).value ==>
      LastWith(pairs, key).Some? && f(key, LastWith(pairs, key).value) == Ok(Coerced(pairs, f).value[key])
  {
    if pairs != [] {
      CoercedValues(pairs[..|pairs| - 1], f);
    }
  }

  /** The pairs stored one after the other, unchanged. */
  function MapOf(pairs: Keywords): Record {
    if pairs == [] then map[] else MapOf(pairs[..|pairs| - 1])[pairs[|pairs| - 1].0 := pairs[|pairs| - 1].1]
  }

  /** Pairs whose values `f` keeps as they are are stored as they are. */
  lemma {:induction false} CoercedSettled(pairs: Keywords, f: (string, Value) -> Result<Value, PyError>)
    requires forall i :: 0 <= i < |pairs| ==> f(pairs[i].0, pairs[i].1) == Ok(pairs[i].1)
    ensures Coerced(pairs, f) == Ok(MapOf(pairs))
  {
    if pairs != [] {
      var init := pairs[..|pairs| - 1];
      assert forall i :: 0 <= i < |init| ==> init[i] == pairs[i];
      CoercedSettled(init, f);
    }
  }

  /** The keys stored are exactly the keys of the pairs. */
  lemma {:induction false} MapOfKeys(pairs: Keywords)
    ensures forall key :: key in MapOf(pairs) <==> exists i :: 0 <= i < |pairs| && pairs[i].0 == key
  {
    if pairs != [] {
      var init := pairs[..|pairs| - 1];
      MapOfKeys(init);
      forall key ensures key in MapOf(pairs) <==> exists i :: 0 <= i < |pairs| && pairs[i].0 == key {
        if key == pairs[|pairs| - 1].0 {
          assert key in MapOf(pairs);
        } else if key in MapOf(init) {
          var i :| 0 <= i < |init| && init[i].0 == key;
          assert pairs[i].0 == key;
        } else {
          forall i | 0 <= i < |pairs| ensures pairs[i].0 != key {
            if i < |init| {
              assert init[i] == pairs[i];
            }
          }
        }
      }
    }
  }

  /** A pair whose key does not come again is stored with its own value. */
  lemma {:induction false} MapOfAt(pairs: Keywords, i: nat)
    requires i < |pairs|
    requires forall j :: i < j < |pairs| ==> pairs[j].0 != pairs[i].0
    ensures pairs[i].0 in MapOf(pairs) && MapOf(pairs)[pairs[i].0] == pairs[i].1
  {
    if i < |pairs| - 1 {
      var init := pairs[..|pairs| - 1];
      assert init[i] == pairs[i];
      forall j | i < j < |init| ensures init[j].0 != init[i].0 {
        assert init[j] == pairs[j];
      }
      MapOfAt(init, i);
      assert pairs[|pairs| - 1].0 != pairs[i].0;
    }
  }

  /** Listing a map's entries once each and storing them rebuilds the map. */
  lemma ListsMapOf(pairs: Keywords, m: Record)
    requires Lists(pairs, m)
    ensures MapOf(pairs) == m
  {
    MapOfKeys(pairs);
    forall key | key in m ensures key in MapOf(pairs) && MapOf(pairs)[key] == m[key] {
      var i :| 0 <= i < |pairs| && pairs[i].0 == key;
      MapOfAt(pairs, i);
    }
    forall key | key in MapOf(pairs) ensures key in m {
      var i :| 0 <= i < |pairs| && pairs[i].0 == key;
    }
  }

  /** `adapt_and_hash_kwargs`: the adapted keywords and the hash of exactly those. */
  function AdaptAndHash(kwargs: Keywords, repr: Value -> string, hash: Record -> string): (r: Result<(Record, string), PyError>)
    ensures r.Ok? <==> Adapted(kwargs, repr).Ok?
    ensures r.Ok? ==> r.value.0 == Adapted(kwargs, repr).value && r.value.1 == hash(r.value.0)
  {
    match Adapted(kwargs, repr)
    case Ok(adapted) => Ok((adapted, hash(adapted)))
    case Err(e) => Err(e)
  }

  /** Two calls whose keywords adapt alike give the same hash. */
  lemma SameAdaptedSameHash(a: Keywords, b: Keywords, repr: Value -> string, hash: Record -> string)
    requires Adapted(a, repr).Ok? && Adapted(a, repr) == Adapted(b, repr)
    ensures AdaptAndHash(a, repr, hash) == AdaptAndHash(b, repr, hash)
  {
  }

  // ---------------------------------------------------------------------------
  // Data product rows.

  /**
    The keyword arguments of a `DataProduct(...)` call or of a
    `get_or_create` query: each field is supplied or not. A supplied
    `release` may be `None`, which the database stores as NULL.
   */
  datatype Fields = Fields(
    release: Option<Option<string>>,
    filetype: Option<string>,
    kwargs: Option<Keywords>,
    kwargsHash: Option<string>)

  /** A row of the `DataProduct` table; `filetype` is `None` when it was never given. */
  datatype Row = Row(release: Option<string>, filetype: Option<string>, kwargs: Record, kwargsHash: string)

  /**
    `DataProduct(**fields)`: the keywords (`{}` when absent) are adapted and
    `kwargs_hash` is the hash of the adapted keywords unless the caller
    supplied one.
   */
  function NewRow(f: Fields, repr: Value -> string, hash: Record -> string): (r: Result<Row, PyError>)
    ensures var kwargs := if f.kwargs.Some? then f.kwargs.value else [];
      && (r.Ok? <==> Adapted(kwargs, repr).Ok?)
      && (r.Err? ==> r.error == Adapted(kwargs, repr).error)
      && (r.Ok? ==> r.value.kwargs == Adapted(kwargs, repr).value)
      && (r.Ok? && f.kwargsHash.Some? ==> r.value.kwargsHash == f.kwargsHash.value)
      && (r.Ok? && f.kwargsHash.None? ==> r.value.kwargsHash == hash(r.value.kwargs))
      && (r.Ok? ==> r.value.filetype == f.filetype)
      && (r.Ok? ==> r.value.release == if f.release.Some? then f.release.value else None)
  {
    var kwargs := if f.kwargs.Some? then f.kwargs.value else [];
    match AdaptAndHash(kwargs, repr, hash)
    case Err(e) => Err(e)
    case Ok((adapted, hashed)) =>
      Ok(Row(
        if f.release.Some? then f.release.value else None,
        f.filetype,
        adapted,
        if f.kwargsHash.Some? then f.kwargsHash.value else hashed))
  }

  /** The conditions of the look-up: supplied keywords are compared through their hash. */
  datatype Criteria = Criteria(release: Option<Option<string>>, filetype: Option<string>, hashes: seq<string>)

  /** The `where` clauses `get_or_create` builds, or the error adapting the keywords raises. */
  function CriteriaOf(f: Fields, repr: Value -> string, hash: Record -> string): (r: Result<Criteria, PyError>)
    ensures f.kwargs.Some? ==> (r.Ok? <==> Adapted(f.kwargs.value, repr).Ok?)
    ensures f.kwargs.None? ==> r.Ok?
    ensures r.Err? ==> f.kwargs.Some? && r.error == Adapted(f.kwargs.value, repr).error
    ensures r.Ok? ==> forall h :: h in r.value.hashes <==>
      (f.kwargs.Some? && h == hash(Adapted(f.kwargs.value, repr).value)) || (f.kwargsHash.Some? && h == f.kwargsHash.value)
  {
    var supplied := if f.kwargsHash.Some? then [f.kwargsHash.value] else [];
    if f.kwargs.None? then Ok(Criteria(f.release, f.filetype, supplied))
    else
      match AdaptAndHash(f.kwargs.value, repr, hash)
      case Err(e) => Err(e)
      case Ok((_, hashed)) =>
        assert forall h :: h in [hashed] + supplied <==> h == hashed || h in supplied;
        Ok(Criteria(f.release, f.filetype, [hashed] + supplied))
  }

  predicate Matches(row: Row, c: Criteria) {
    && (c.release.Some? ==> row.release == c.release.value)
    && (c.filetype.Some? ==> row.filetype == c.filetype)
    && (forall h :: h in c.hashes ==> row.kwargsHash == h)
  }

  /** `query.get()`: the matching row with the smallest id below `bound`. */
  function FirstMatch(rows: map<nat, Row>, c: Criteria, bound: nat): (r: Option<nat>)
    ensures r.Some? ==> r.value < bound && r.value in rows && Matches(rows[r.value], c)
    ensures r.Some? ==> forall id :: id < r.value && id in rows ==> !Matches(rows[id], c)
    ensures r.None? ==> forall id :: id < bound && id in rows ==> !Matches(rows[id], c)
  {
    if bound == 0 then None
    else
      match FirstMatch(rows, c, bound - 1)
      case Some(id) => Some(id)
      case None => if bound - 1 in rows && Matches(rows[bound - 1], c) then Some(bound - 1) else None
  }

  /** The `DataProduct` table: rows by id and the next id the sequence hands out. */
  datatype Table = Table(rows: map<nat, Row>, next: nat)

  predicate TableValid(t: Table) {
    forall id :: id in t.rows ==> id < t.next
  }

  function Lookup(t: Table, c: Criteria): Option<nat> {
    FirstMatch(t.rows, c, t.next)
  }

  /** Rows that another writer commits, in order, between the failed look-up and the insert. */
  function Commit(t: Table, others: seq<Row>): (r: Table)
    requires TableValid(t)
    ensures TableValid(r)
    ensures r.next == t.next + |others|
    ensures forall id :: id in r.rows <==> id in t.rows || t.next <= id < r.next
    ensures forall id :: id in t.rows ==> r.rows[id] == t.rows[id]
  {
    if others == [] then t
    else
      var u := Commit(t, others[..|others| - 1]);
      Table(u.rows[u.next := others[|others| - 1]], u.next + 1)
  }

  /**
    Whether inserting `row` violates a constraint: `filetype` is NOT NULL,
    and (`release`, `filetype`, `kwargs_hash`) is a unique index, under which
    rows with a NULL release never collide.
   */
  predicate Violates(t: Table, row: Row) {
    || row.filetype.None?
    || (row.release.Some? &&
        exists id :: id in t.rows && t.rows[id].release == row.release
          && t.rows[id].filetype == row.filetype && t.rows[id].kwargsHash == row.kwargsHash)
  }

  /** `kwargs.update(defaults)` */
  function Merge(f: Fields, defaults: Fields): Fields {
    Fields(
      if defaults.release.Some? then defaults.release else f.release,
      if defaults.filetype.Some? then defaults.filetype else f.filetype,
      if defaults.kwargs.Some? then defaults.kwargs else f.kwargs,
      if defaults.kwargsHash.Some? then defaults.kwargsHash else f.kwargsHash)
  }

  /** The outcomes of `get_or_create`: the row's id and whether it was created. */
  datatype Outcome = Outcome(id: nat, created: bool)

  /**
    `DataProduct.get_or_create(**fields, defaults=defaults)`, with the rows
    `others` that a concurrent writer commits after the first look-up fails.
    An existing match is returned; otherwise the row is built from the
    fields updated with the defaults and inserted; if the insert violates a
    constraint, the look-up is repeated and IntegrityError re-raised when it
    still finds nothing.
   */
  function GetOrCreateOn(t: Table, f: Fields, defaults: Fields, others: seq<Row>, repr: Value -> string, hash: Record -> string)
    : (Result<Outcome, PyError>, Table)
    requires TableValid(t)
  {
    match CriteriaOf(f, repr, hash)
    case Err(e) => (Err(e), t)
    case Ok(c) =>
      if Lookup(t, c).Some? then (Ok(Outcome(Lookup(t, c).value, false)), t)
      else
        var u := Commit(t, others);
        match NewRow(Merge(f, defaults), repr, hash)
        case Err(e) => (Err(e), u)
        case Ok(row) =>
          if !Violates(u, row) then (Ok(Outcome(u.next, true)), Table(u.rows[u.next := row], u.next + 1))
          else if Lookup(u, c).Some? then (Ok(Outcome(Lookup(u, c).value, false)), u)
          else (Err(IntegrityError), u)
  }

  /** A match already in the table is returned, and nothing changes. */
  lemma GetOrCreateFound(t: Table, f: Fields, defaults: Fields, others: seq<Row>, repr: Value -> string, hash: Record -> string)
    requires TableValid(t)
    requires CriteriaOf(f, repr, hash).Ok? && Lookup(t, CriteriaOf(f, repr, hash).value).Some?
    ensures GetOrCreateOn(t, f, defaults, others, repr, hash) == (Ok(Outcome(Lookup(t, CriteriaOf(f, repr, hash).value).value, false)), t)
  {
  }

  /** The table stays valid and keeps every row it had. */
  lemma GetOrCreateKeeps(t: Table, f: Fields, defaults: Fields, others: seq<Row>, repr: Value -> string, hash: Record -> string)
    requires TableValid(t)
    ensures var t' := GetOrCreateOn(t, f, defaults, others, repr, hash).1;
      && TableValid(t')
      && (forall id :: id in t.rows ==> id in t'.rows && t'.rows[id] == t.rows[id])
  {
    var t' := GetOrCreateOn(t, f, defaults, others, repr, hash).1;
    var u := Commit(t, others);
    if CriteriaOf(f, repr, hash).Ok? && Lookup(t, CriteriaOf(f, repr, hash).value).None? {
      var m := NewRow(Merge(f, defaults), repr, hash);
      if m.Ok? && !Violates(u, m.value) {
        assert t' == Table(u.rows[u.next := m.value], u.next + 1);
      } else {
        assert t' == u;
      }
    } else {
      assert t' == t;
    }
  }

  /**
    A created row is new, takes the next id after the concurrent writer's
    rows, and is exactly the row the fields updated with the defaults
    describe.
   */
  lemma GetOrCreateCreated(t: Table, f: Fields, defaults: Fields, others: seq<Row>, repr: Value -> string, hash: Record -> string)
    requires TableValid(t)
    ensures var (r, t') := GetOrCreateOn(t, f, defaults, others, repr, hash);
      r.Ok? && r.value.created ==>
        && r.value.id !in t.rows && r.value.id == t.next + |others|
        && NewRow(Merge(f, defaults), repr, hash).Ok?
        && t' == Table(Commit(t, others).rows[r.value.id := NewRow(Merge(f, defaults), repr, hash).value], r.value.id + 1)
  {
    var (r, t') := GetOrCreateOn(t, f, defaults, others, repr, hash);
    if r.Ok? && r.value.created {
      var c := CriteriaOf(f, repr, hash).value;
      assert Lookup(t, c).None?;
      assert r.value.id == Commit(t, others).next;
    }
  }

  /**
    A row returned as found matches every supplied field, and IntegrityError
    is raised only when the repeated look-up finds no match.
   */
  lemma GetOrCreateMatches(t: Table, f: Fields, defaults: Fields, others: seq<Row>, repr: Value -> string, hash: Record -> string)
    requires TableValid(t)
    ensures var (r, t') := GetOrCreateOn(t, f, defaults, others, repr, hash);
      r.Ok? && !r.value.created ==>
        CriteriaOf(f, repr, hash).Ok? && r.value.id in t'.rows && Matches(t'.rows[r.value.id], CriteriaOf(f, repr, hash).value)
  {
    var (r, t') := GetOrCreateOn(t, f, defaults, others, repr, hash);
    if r.Ok? && !r.value.created {
      var c := CriteriaOf(f, repr, hash).value;
      if Lookup(t, c).None? {
        var u := Commit(t, others);
        assert t' == u && Lookup(u, c) == Some(r.value.id);
      }
    }
  }

  lemma GetOrCreateRaises(t: Table, f: Fields, defaults: Fields, others: seq<Row>, repr: Value -> string, hash: Record -> string)
    requires TableValid(t)
    ensures var (r, t') := GetOrCreateOn(t, f, defaults, others, repr, hash);
      r == Err(IntegrityError) ==> CriteriaOf(f, repr, hash).Ok? && Lookup(t', CriteriaOf(f, repr, hash).value).None?
  {
    var (r, t') := GetOrCreateOn(t, f, defaults, others, repr, hash);
    if CriteriaOf(f, repr, hash).Err? {
      AdaptedNotIntegrity(f.kwargs.value, repr);
    } else {
      var c := CriteriaOf(f, repr, hash).value;
      var m := Merge(f, defaults);
      if Lookup(t, c).None? && NewRow(m, repr, hash).Err? {
        AdaptedNotIntegrity(if m.kwargs.Some? then m.kwargs.value else [], repr);
      }
    }
  }

  /** Adapting keywords never raises IntegrityError. */
  lemma AdaptedNotIntegrity(kwargs: Keywords, repr: Value -> string)
    ensures Adapted(kwargs, repr).Err? ==> Adapted(kwargs, repr).error != IntegrityError
  {
    if Adapted(kwargs, repr).Err? {
      var pairs := Normalise(kwargs);
      var i := FailingIndex(pairs, CoerceWith(repr));
      assert CoerceWith(repr)(pairs[i].0, pairs[i].1) == Coerce(pairs[i].0, pairs[i].1, repr);
    }
  }

  /** The first pair whose coercion fails, and that its error is the error of the whole. */
  lemma {:induction false} FailingIndex(pairs: Keywords, f: (string, Value) -> Result<Value, PyError>) returns (i: nat)
    requires Coerced(pairs, f).Err?
    ensures i < |pairs| && f(pairs[i].0, pairs[i].1) == Err(Coerced(pairs, f).error)
  {
    var init := pairs[..|pairs| - 1];
    if Coerced(init, f).Err? {
      i := FailingIndex(init, f);
      assert init[i] == pairs[i];
    } else {
      i := |pairs| - 1;
    }
  }

  /**
    Asking again with the same fields finds a row and changes nothing, as
    long as the defaults do not override what the query asks for; without a
    concurrent writer it is the row the first call returned.
   */
  lemma GetOrCreateAgain(t: Table, f: Fields, defaults: Fields, others: seq<Row>, repr: Value -> string, hash: Record -> string)
    requires TableValid(t)
    requires defaults.release.Some? ==> f.release.None?
    requires defaults.filetype.Some? ==> f.filetype.None?
    requires defaults.kwargs.Some? ==> f.kwargs.None?
    requires defaults.kwargsHash.Some? ==> f.kwargsHash.None? && f.kwargs.None?
    requires f.kwargs.Some? && f.kwargsHash.Some? && Adapted(f.kwargs.value, repr).Ok? ==>
      f.kwargsHash.value == hash(Adapted(f.kwargs.value, repr).value)
    requires GetOrCreateOn(t, f, defaults, others, repr, hash).0.Ok?
    ensures var (r, t') := GetOrCreateOn(t, f, defaults, others, repr, hash);
      && TableValid(t')
      && GetOrCreateOn(t', f, defaults, [], repr, hash).0.Ok?
      && !GetOrCreateOn(t', f, defaults, [], repr, hash).0.value.created
      && GetOrCreateOn(t', f, defaults, [], repr, hash).1 == t'
      && (others == [] ==> GetOrCreateOn(t', f, defaults, [], repr, hash).0.value.id == r.value.id)
  {
    GetOrCreateKeeps(t, f, defaults, others, repr, hash);
    GetOrCreateCreated(t, f, defaults, others, repr, hash);
    GetOrCreateMatches(t, f, defaults, others, repr, hash);
    GetOrCreateRaises(t, f, defaults, others, repr, hash);
    var (r, t') := GetOrCreateOn(t, f, defaults, others, repr, hash);
    var c := CriteriaOf(f, repr, hash).value;
    if r.value.created {
      var row := NewRow(Merge(f, defaults), repr, hash).value;
      assert t'.rows[r.value.id] == row;
      forall h | h in c.hashes ensures row.kwargsHash == h {
        if f.kwargs.Some? && h == hash(Adapted(f.kwargs.value, repr).value) {
          assert Merge(f, defaults).kwargs == f.kwargs;
          assert row.kwargs == Adapted(f.kwargs.value, repr).value;
        }
      }
      assert Matches(row, c);
      if others == [] {
        assert Lookup(t, c).None?;
        assert Lookup(t', c) == Some(r.value.id);
      }
      assert Lookup(t', c).Some?;
    }
    GetOrCreateFound(t', f, defaults, [], repr, hash);
  }

  /** The `DataProduct` table as the database holds it. */
  class DataProductStore {
    var rows: map<nat, Row>
    var next: nat

    function State(): Table
      reads this
    {
      Table(rows, next)
    }

    predicate Valid()
      reads this
    {
      TableValid(State())
    }

    constructor ()
      ensures State() == Table(map[], 1) && Valid()
    {
      rows := map[];
      next := 1;
    }

    /** Commits one row on behalf of another writer. */
    method Insert(row: Row) returns (id: nat)
      requires Valid()
      modifies this
      ensures State() == Table(old(rows)[old(next) := row], old(next) + 1) && id == old(next) && Valid()
    {
      id := next;
      rows := rows[id := row];
      next := next + 1;
    }

    /** Commits the rows of another writer, in order. */
    method CommitAll(others: seq<Row>)
      requires Valid()
      modifies this
      ensures Valid()
      ensures State() == Commit(old(State()), others)
    {
      for i := 0 to |others|
        invariant Valid()
        invariant State() == Commit(old(State()), others[..i])
      {
        assert others[..i + 1][..i] == others[..i];
        var _ := Insert(others[i]);
      }
      assert others[..|others|] == others;
    }

    /**
      `DataProduct.get_or_create`: the look-up, then, when it finds nothing,
      the rows of a concurrent writer, the insert, and on a constraint
      violation the second look-up.
     */
    method GetOrCreate(f: Fields, defaults: Fields, others: seq<Row>, repr: Value -> string, hash: Record -> string)
      returns (r: Result<Outcome, PyError>)
      requires Valid()
      modifies this
      ensures Valid()
      ensures (r, State()) == GetOrCreateOn(old(State()), f, defaults, others, repr, hash)
    {
      var criteria := CriteriaOf(f, repr, hash);
      if criteria.Err? {
        return Err(criteria.error);
      }
      var c := criteria.value;
      var found := FirstMatch(rows, c, next);
      if found.Some? {
        return Ok(Outcome(found.value, false));
      }
      CommitAll(others);
      var made := NewRow(Merge(f, defaults), repr, hash);
      if made.Err? {
        return Err(made.error);
      }
      if !Violates(State(), made.value) {
        var id := Insert(made.value);
        return Ok(Outcome(id, true));
      }
      found := FirstMatch(rows, c, next);
      if found.Some? {
        return Ok(Outcome(found.value, false));
      }
      return Err(IntegrityError);
    }
  }
}
