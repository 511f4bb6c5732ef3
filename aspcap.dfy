/**
  The ASPCAP grid-selection utilities: the LSF grid of a fibre, the parts of a
  FERRE header path, the grouping of header paths by telescope and LSF, the
  grids suitable for an observation, and the FERRE keywords that tie
  abundances to one another.
 */
module Aspcap {
  import opened Wrappers
  import opened Text
  import opened Values

  // ---------------------------------------------------------------------------
  // `get_lsf_grid_name`

  /** The LSF grid of a fibre: fibres 1-50 are "d", 51-145 "c", 146-245 "b", 246-300 "a", and others have none. */
  function LsfGridName(fibre: int): (r: Option<string>)
    ensures r.Some? <==> 1 <= fibre <= 300
    ensures r.Some? ==> r.value in {"a", "b", "c", "d"}
  {
    if 1 <= fibre <= 50 then Some("d")
    else if 50 < fibre <= 145 then Some("c")
    else if 145 < fibre <= 245 then Some("b")
    else if 245 < fibre <= 300 then Some("a")
    else None
  }

  /** The rank of a grid letter: "a" 0, "b" 1, "c" 2, "d" 3. */
  function LsfRank(name: string): nat {
    if name == "a" then 0 else if name == "b" then 1 else if name == "c" then 2 else 3
  }

  /**
    The bands are ordered: a fibre further along the slit never gets a grid
    that comes later in the alphabet, and every band is a contiguous range.
   */
  lemma LsfGridMonotone(m: int, n: int)
    requires 1 <= m <= n <= 300
    ensures LsfRank(LsfGridName(n).value) <= LsfRank(LsfGridName(m).value)
    ensures LsfGridName(m) == LsfGridName(n) ==> forall k :: m <= k <= n ==> LsfGridName(k) == LsfGridName(m)
  {
  }

  // ---------------------------------------------------------------------------
  // Header paths.

  /** Python's `s[i:]` for a non-negative `i`. */
  function Drop(s: string, i: nat): string {
    if i <= |s| then s[i..] else []
  }

  /** Python's `s[:j]` for a non-negative `j`. */
  function Take(s: string, j: nat): string {
    if j <= |s| then s[..j] else s
  }

  /** Python's `s[i:j]` for non-negative `i` and `j`. */
  function Slice(s: string, i: nat, j: nat): string {
    Drop(Take(s, j), i)
  }

  /** The last five components of a header path. */
  datatype PathParts = PathParts(code: string, photospheres: string, isotopes: string, folder: string, basename: string)

  /** `*_, code, photospheres, isotopes, folder, basename = path.split("/")`, ValueError for fewer than five. */
  function SplitPath(path: string): (r: Result<PathParts, PyError>)
    ensures r.Err? <==> |Split(path, '/')| < 5
    ensures r.Err? ==> r.error == ValueError
    ensures r.Ok? ==> var c := Split(path, '/'); var n := |c|;
      r.value == PathParts(c[n - 5], c[n - 4], c[n - 3], c[n - 2], c[n - 1])
  {
    var c := Split(path, '/');
    var n := |c|;
    if n < 5 then Err(ValueError) else Ok(PathParts(c[n - 5], c[n - 4], c[n - 3], c[n - 2], c[n - 1]))
  }

  /** `gd, spectral_type = (parts[1][4], parts[1][5:])` */
  function GdAndType(parts: seq<string>): (r: Result<(char, string), PyError>)
    ensures r.Ok? <==> |parts| >= 2 && |parts[1]| >= 5
    ensures r.Err? ==> r.error == IndexError
    ensures r.Ok? ==> r.value == (parts[1][4], parts[1][5..])
  {
    if |parts| < 2 || |parts[1]| < 5 then Err(IndexError) else Ok((parts[1][4], parts[1][5..]))
  }

  /** What `task_id_parts` returns: the telescope, the LSF, and `"<spectral_type>-<giant|dwarf>"`. */
  datatype TaskId = TaskId(telescope: string, lsf: string, description: string)

  /**
    `task_id_parts(header_path)`. The failures come in the order the source
    meets them: too few path components (ValueError), too short a second
    basename part (IndexError), no fourth part (IndexError), a class other
    than "g" or "d" (KeyError), too short a fourth part (IndexError).
   */
  function TaskIdParts(path: string): (r: Result<TaskId, PyError>)
    ensures SplitPath(path).Err? ==> r == Err(ValueError)
    ensures SplitPath(path).Ok? ==> r == TaskIdOf(Split(SplitPath(path).value.basename, '_'))
  {
    match SplitPath(path)
    case Err(e) => Err(e)
    case Ok(p) => TaskIdOf(Split(p.basename, '_'))
  }

  /** `task_id_parts` from the "_"-separated parts of the basename on. */
  function TaskIdOf(parts: seq<string>): (r: Result<TaskId, PyError>)
    ensures r.Ok? <==> |parts| >= 4 && |parts[1]| >= 5 && parts[1][4] in "gd" && |parts[3]| >= 4
    ensures r.Err? ==>
      r.error == (if |parts| < 4 || |parts[1]| < 5 then IndexError else if parts[1][4] !in "gd" then KeyError else IndexError)
    ensures r.Ok? ==>
      && r.value.lsf == [parts[3][3]]
      && r.value.telescope in {"LCO", "APO"}
      && (r.value.telescope == "LCO" <==> Drop(parts[3], 4) == "s")
      && r.value.description == parts[1][5..] + (if parts[1][4] == 'g' then "-giant" else "-dwarf")
  {
    match GdAndType(parts)
    case Err(e) => Err(e)
    case Ok((gd, spectralType)) =>
      if |parts| < 4 then Err(IndexError)
      else
        var telescope := if Drop(parts[3], 4) == "s" then "LCO" else "APO";
        if gd != 'g' && gd != 'd' then Err(KeyError)
        else if |parts[3]| < 4 then Err(IndexError)
        else Ok(TaskId(telescope, [parts[3][3]], spectralType + "-" + (if gd == 'g' then "giant" else "dwarf")))
  }

  /** A calendar date, as `datetime.date` holds it. */
  datatype Date = Date(year: int, month: int, day: int)

  predicate IsLeap(year: int) {
    year % 4 == 0 && (year % 100 != 0 || year % 400 == 0)
  }

  function DaysIn(year: int, month: int): int {
    if month == 2 then (if IsLeap(year) then 29 else 28)
    else if month in {4, 6, 9, 11} then 30
    else 31
  }

  /** What `datetime.date(year, month, day)` accepts. */
  predicate ValidDate(d: Date) {
    1 <= d.year <= 9999 && 1 <= d.month <= 12 && 1 <= d.day <= DaysIn(d.year, d.month)
  }

  /** The keywords `parse_header_path` returns. */
  datatype HeaderInfo = HeaderInfo(
    code: string,
    photospheres: string,
    isotopes: string,
    gd: string,
    telescope: string,
    spectralType: string,
    created: Date,
    lsf: string)

  /** `int(s)` on a string, ValueError when it is not a decimal integer. */
  function IntOf(s: string): Result<int, PyError> {
    if ParseInt(s).Some? then Ok(ParseInt(s).value) else Err(ValueError)
  }

  /**
    `parse_header_path(header_path)`. The Kurucz "BA" grid (class "B", type
    "A") is special: its LSF is "combo5", its date 2019-11-21, its class
    empty, and its telescope read from the end of the third part. Every other
    grid has its date read from the third part as `YYMMDD` (years from 2000),
    its LSF from the fourth part's fourth character, and an "s" after that
    marks the LCO telescope.
   */
  function ParseHeaderPath(path: string): (r: Result<HeaderInfo, PyError>)
    ensures SplitPath(path).Err? ==> r == Err(ValueError)
    ensures r.Ok? ==> var p := SplitPath(path).value;
      && r.value.code == p.code && r.value.photospheres == p.photospheres && r.value.isotopes == p.isotopes
      && r.value.telescope in {"lco25m", "apo25m"}
      && (r.value.gd == "" <==> r.value.lsf == "combo5")
      && (r.value.gd == "" ==> r.value.spectralType == "BA" && r.value.created == Date(2019, 11, 21))
      && (r.value.gd != "" ==> |r.value.gd| == 1 && |r.value.lsf| == 1 && ValidDate(r.value.created))
  {
    match SplitPath(path)
    case Err(e) => Err(e)
    case Ok(p) => HeaderOf(p, Split(p.basename, '_'), IntOf)
  }

  /**
    `parse_header_path` from the path's components and the "_"-separated
    parts of the basename on; `toInt` reads the date's numbers (`IntOf`).
   */
  function HeaderOf(p: PathParts, parts: seq<string>, toInt: string -> Result<int, PyError>): (r: Result<HeaderInfo, PyError>)
    ensures r.Ok? ==>
      && r.value.code == p.code && r.value.photospheres == p.photospheres && r.value.isotopes == p.isotopes
      && r.value.telescope in {"lco25m", "apo25m"}
      && (r.value.gd == "" <==> r.value.lsf == "combo5")
      && (r.value.gd == "" ==> r.value.spectralType == "BA" && r.value.created == Date(2019, 11, 21))
      && (r.value.gd != "" ==> |r.value.gd| == 1 && |r.value.lsf| == 1 && ValidDate(r.value.created))
  {
    if GdAndType(parts).Err? then Err(IndexError)
    else
      var (gd, spectralType) := GdAndType(parts).value;
      if gd == 'B' && spectralType == "A" then
        if |parts| < 3 then Err(IndexError)
        else
          var telescope := if |parts[2]| > 0 && parts[2][|parts[2]| - 1] == 's' then "lco25m" else "apo25m";
          Ok(HeaderInfo(p.code, p.photospheres, p.isotopes, "", telescope, "BA", Date(2019, 11, 21), "combo5"))
      else if |parts| < 3 then Err(IndexError)
      else
        var date := parts[2];
        var yy, mm, dd := toInt(Take(date, 2)), toInt(Slice(date, 2, 4)), toInt(Slice(date, 4, 6));
        if yy.Err? || mm.Err? || dd.Err? then Err(ValueError)
        else if |parts| < 4 || |parts[3]| < 4 then Err(IndexError)
        else
          var telescope := if Drop(parts[3], 4) == "s" then "lco25m" else "apo25m";
          var created := Date(2000 + yy.value, mm.value, dd.value);
          if !ValidDate(created) then Err(ValueError)
          else Ok(HeaderInfo(p.code, p.photospheres, p.isotopes, [gd], telescope, spectralType, created, [parts[3][3]]))
  }

  /**
    The two parsers agree: outside the BA grid, a path both accept has the
    same LSF, and "LCO" in one is "lco25m" in the other.
   */
  lemma TaskIdAgreesWithHeader(path: string)
    requires TaskIdParts(path).Ok? && ParseHeaderPath(path).Ok?
    ensures ParseHeaderPath(path).value.lsf != "combo5" ==>
      && TaskIdParts(path).value.lsf == ParseHeaderPath(path).value.lsf
      && (TaskIdParts(path).value.telescope == "LCO" <==> ParseHeaderPath(path).value.telescope == "lco25m")
    ensures ParseHeaderPath(path).value.lsf != "combo5" ==> ParseHeaderPath(path).value.gd in {"g", "d"}
  {
    var p := SplitPath(path).value;
    TaskIdAgreesWithHeaderOf(p, Split(p.basename, '_'), IntOf);
  }

  lemma TaskIdAgreesWithHeaderOf(p: PathParts, parts: seq<string>, toInt: string -> Result<int, PyError>)
    requires TaskIdOf(parts).Ok? && HeaderOf(p, parts, toInt).Ok?
    ensures HeaderOf(p, parts, toInt).value.lsf != "combo5" ==>
      && TaskIdOf(parts).value.lsf == HeaderOf(p, parts, toInt).value.lsf
      && (TaskIdOf(parts).value.telescope == "LCO" <==> HeaderOf(p, parts, toInt).value.telescope == "lco25m")
    ensures HeaderOf(p, parts, toInt).value.lsf != "combo5" ==> HeaderOf(p, parts, toInt).value.gd in {"g", "d"}
  {
  }

  // ---------------------------------------------------------------------------
  // Writing header paths, and reading them back.

  /** A number below 100 as two decimal digits. */
  function TwoDigits(n: nat): (s: string)
    requires n < 100
    ensures |s| == 2 && AllDigits(s)
  {
    ['0' + (n / 10) as char, '0' + (n % 10) as char]
  }

  lemma TwoDigitsValue(n: nat)
    requires n < 100
    ensures IntOf(TwoDigits(n)) == Ok(n)
  {
    var s := TwoDigits(n);
    assert s[0] as int - '0' as int == n / 10 && s[1] as int - '0' as int == n % 10;
    assert s[..1][..0] == [];
    assert DigitsValue(s[..1]) == n / 10;
    assert DigitsValue(s) == DigitsValue(s[..1]) * 10 + (s[1] as int - '0' as int);
    StripDigits(s);
  }

  /** `p_apst<gd><type>_<YYMMDD>_lsf<lsf>[s]_<tail...>`, split on "_". */
  function BasenameParts(gd: char, spectralType: string, created: Date, lsf: char, lco: bool, tail: seq<string>): seq<string>
    requires 0 <= created.year - 2000 < 100 && 0 <= created.month < 100 && 0 <= created.day < 100
  {
    var date := TwoDigits(created.year - 2000) + TwoDigits(created.month) + TwoDigits(created.day);
    ["p", "apst" + [gd] + spectralType, date, "lsf" + [lsf] + (if lco then "s" else "")] + tail
  }

  /** The path of a grid header below the directories `prefix`. */
  function HeaderPath(prefix: seq<string>, code: string, photospheres: string, isotopes: string, folder: string,
                      gd: char, spectralType: string, created: Date, lsf: char, lco: bool, tail: seq<string>): string
    requires 0 <= created.year - 2000 < 100 && 0 <= created.month < 100 && 0 <= created.day < 100
  {
    var basename := Join(BasenameParts(gd, spectralType, created, lsf, lco, tail), '_');
    Join(prefix + [code, photospheres, isotopes, folder, basename], '/')
  }

  /** Splitting `a`, the separator and `rest`, where `a` holds no separator, gives `a` and the parts of `rest`. */
  lemma {:induction false} SplitConcat(a: string, rest: string, sep: char)
    requires sep !in a
    ensures Split(a + [sep] + rest, sep) == [a] + Split(rest, sep)
  {
    if a == [] {
      assert a + [sep] + rest == [sep] + rest;
    } else {
      var s := a + [sep] + rest;
      assert s[1..] == a[1..] + [sep] + rest && s[0] == a[0] != sep;
      SplitConcat(a[1..], rest, sep);
      assert [a[0]] + a[1..] == a;
    }
  }

  /** Joining parts that hold no separator and splitting again gives the parts back. */
  lemma {:induction false} SplitOfJoin(parts: seq<string>, sep: char)
    requires |parts| >= 1
    requires forall i :: 0 <= i < |parts| ==> sep !in parts[i]
    ensures Split(Join(parts, sep), sep) == parts
  {
    if |parts| == 1 {
      SplitNoSeparator(parts[0], sep);
    } else {
      SplitOfJoin(parts[1..], sep);
      SplitConcat(parts[0], Join(parts[1..], sep), sep);
    }
  }

  /** The basename splits back into its parts, and holds no "/". */
  lemma BasenameSplits(gd: char, spectralType: string, created: Date, lsf: char, lco: bool, tail: seq<string>)
    requires 0 <= created.year - 2000 < 100 && 0 <= created.month < 100 && 0 <= created.day < 100
    requires forall s :: s in [spectralType] + tail ==> '_' !in s && '/' !in s
    requires gd !in "/_" && lsf !in "/_"
    ensures var bparts := BasenameParts(gd, spectralType, created, lsf, lco, tail);
      Split(Join(bparts, '_'), '_') == bparts && '/' !in Join(bparts, '_')
  {
    var bparts := BasenameParts(gd, spectralType, created, lsf, lco, tail);
    forall i | 0 <= i < |bparts| ensures '_' !in bparts[i] && '/' !in bparts[i] {
      if i >= 4 {
        assert bparts[i] == tail[i - 4] && tail[i - 4] in [spectralType] + tail;
      } else if i == 1 {
        assert spectralType in [spectralType] + tail;
      }
    }
    SplitOfJoin(bparts, '_');
    NoSeparatorInJoin(bparts, '_', '/');
  }

  /** The path splits into the directories and the basename. */
  lemma PathSplits(prefix: seq<string>, code: string, photospheres: string, isotopes: string, folder: string, basename: string)
    requires forall s :: s in prefix + [code, photospheres, isotopes, folder, basename] ==> '/' !in s
    ensures SplitPath(Join(prefix + [code, photospheres, isotopes, folder, basename], '/'))
      == Ok(PathParts(code, photospheres, isotopes, folder, basename))
  {
    var comps := prefix + [code, photospheres, isotopes, folder, basename];
    forall i | 0 <= i < |comps| ensures '/' !in comps[i] {
      assert comps[i] in comps;
    }
    SplitOfJoin(comps, '/');
  }

  /**
    A header path written from its fields reads back as those fields, for
    every grid other than the BA grid.
   */
  lemma ParseOfHeaderPath(prefix: seq<string>, code: string, photospheres: string, isotopes: string, folder: string,
                          gd: char, spectralType: string, created: Date, lsf: char, lco: bool, tail: seq<string>)
    requires 0 <= created.year - 2000 < 100 && ValidDate(created)
    requires !(gd == 'B' && spectralType == "A")
    requires forall s :: s in prefix + [code, photospheres, isotopes, folder] ==> '/' !in s
    requires forall s :: s in [spectralType] + tail ==> '_' !in s && '/' !in s
    requires gd !in "/_" && lsf !in "/_"
    ensures ParseHeaderPath(HeaderPath(prefix, code, photospheres, isotopes, folder, gd, spectralType, created, lsf, lco, tail))
      == Ok(HeaderInfo(code, photospheres, isotopes, [gd], if lco then "lco25m" else "apo25m", spectralType, created, [lsf]))
  {
    var bparts := BasenameParts(gd, spectralType, created, lsf, lco, tail);
    var basename := Join(bparts, '_');
    BasenameSplits(gd, spectralType, created, lsf, lco, tail);
    assert forall s :: s in prefix + [code, photospheres, isotopes, folder, basename] ==>
      s in prefix + [code, photospheres, isotopes, folder] || s == basename;
    PathSplits(prefix, code, photospheres, isotopes, folder, basename);
    var p := PathParts(code, photospheres, isotopes, folder, basename);
    TwoDigitsValue(created.year - 2000);
    TwoDigitsValue(created.month);
    TwoDigitsValue(created.day);
    HeaderOfParts(p, gd, spectralType, created, lsf, lco, tail, IntOf);
  }

  /**
    `task_id_parts` of a header path written from its fields: the telescope
    is "LCO" exactly when the LSF part ends in "s", the LSF is its letter,
    and the description is the spectral type followed by "-giant" or
    "-dwarf".
   */
  lemma TaskIdOfHeaderPath(prefix: seq<string>, code: string, photospheres: string, isotopes: string, folder: string,
                           gd: char, spectralType: string, created: Date, lsf: char, lco: bool, tail: seq<string>)
    requires 0 <= created.year - 2000 < 100 && 0 <= created.month < 100 && 0 <= created.day < 100
    requires gd == 'g' || gd == 'd'
    requires forall s :: s in prefix + [code, photospheres, isotopes, folder] ==> '/' !in s
    requires forall s :: s in [spectralType] + tail ==> '_' !in s && '/' !in s
    requires lsf !in "/_"
    ensures TaskIdParts(HeaderPath(prefix, code, photospheres, isotopes, folder, gd, spectralType, created, lsf, lco, tail))
      == Ok(TaskId(if lco then "LCO" else "APO", [lsf], spectralType + "-" + (if gd == 'g' then "giant" else "dwarf")))
  {
    var bparts := HeaderPathSplits(prefix, code, photospheres, isotopes, folder, gd, spectralType, created, lsf, lco, tail);
    TaskIdOfBasename(gd, spectralType, created, lsf, lco, tail);
  }

  /** `task_id_parts` on the parts of a written basename. */
  lemma TaskIdOfBasename(gd: char, spectralType: string, created: Date, lsf: char, lco: bool, tail: seq<string>)
    requires 0 <= created.year - 2000 < 100 && 0 <= created.month < 100 && 0 <= created.day < 100
    requires gd == 'g' || gd == 'd'
    ensures TaskIdOf(BasenameParts(gd, spectralType, created, lsf, lco, tail))
      == Ok(TaskId(if lco then "LCO" else "APO", [lsf], spectralType + "-" + (if gd == 'g' then "giant" else "dwarf")))
  {
    var bparts := BasenameParts(gd, spectralType, created, lsf, lco, tail);
    assert Drop(bparts[3], 4) == (if lco then "s" else "");
    assert bparts[1][4] == gd && bparts[1][5..] == spectralType;
  }

  /** A header path whose class letter is neither "g" nor "d" makes `task_id_parts` raise KeyError. */
  lemma TaskIdUnknownClass(prefix: seq<string>, code: string, photospheres: string, isotopes: string, folder: string,
                           gd: char, spectralType: string, created: Date, lsf: char, lco: bool, tail: seq<string>)
    requires 0 <= created.year - 2000 < 100 && 0 <= created.month < 100 && 0 <= created.day < 100
    requires gd != 'g' && gd != 'd'
    requires forall s :: s in prefix + [code, photospheres, isotopes, folder] ==> '/' !in s
    requires forall s :: s in [spectralType] + tail ==> '_' !in s && '/' !in s
    requires gd !in "/_" && lsf !in "/_"
    ensures TaskIdParts(HeaderPath(prefix, code, photospheres, isotopes, folder, gd, spectralType, created, lsf, lco, tail))
      == Err(KeyError)
  {
    var bparts := HeaderPathSplits(prefix, code, photospheres, isotopes, folder, gd, spectralType, created, lsf, lco, tail);
    assert bparts[1][4] == gd;
  }

  /** A header path splits into its directories and the "_"-separated parts of its basename. */
  lemma HeaderPathSplits(prefix: seq<string>, code: string, photospheres: string, isotopes: string, folder: string,
                         gd: char, spectralType: string, created: Date, lsf: char, lco: bool, tail: seq<string>)
    returns (bparts: seq<string>)
    requires 0 <= created.year - 2000 < 100 && 0 <= created.month < 100 && 0 <= created.day < 100
    requires forall s :: s in prefix + [code, photospheres, isotopes, folder] ==> '/' !in s
    requires forall s :: s in [spectralType] + tail ==> '_' !in s && '/' !in s
    requires gd !in "/_" && lsf !in "/_"
    ensures bparts == BasenameParts(gd, spectralType, created, lsf, lco, tail)
    ensures var path := HeaderPath(prefix, code, photospheres, isotopes, folder, gd, spectralType, created, lsf, lco, tail);
      && SplitPath(path) == Ok(PathParts(code, photospheres, isotopes, folder, Join(bparts, '_')))
      && Split(Join(bparts, '_'), '_') == bparts
  {
    bparts := BasenameParts(gd, spectralType, created, lsf, lco, tail);
    var basename := Join(bparts, '_');
    BasenameSplits(gd, spectralType, created, lsf, lco, tail);
    assert forall s :: s in prefix + [code, photospheres, isotopes, folder, basename] ==>
      s in prefix + [code, photospheres, isotopes, folder] || s == basename;
    PathSplits(prefix, code, photospheres, isotopes, folder, basename);
  }

  /**
    The Kurucz BA grid, `p_apstBA_<stamp>_...`: whatever the rest of its
    name, it reads as class "", type "BA", LSF "combo5" and date 2019-11-21,
    and its telescope is LCO exactly when the third part ends in "s".
   */
  lemma ParseOfBaHeaderPath(prefix: seq<string>, code: string, photospheres: string, isotopes: string, folder: string,
                            stamp: string, tail: seq<string>)
    requires forall s :: s in prefix + [code, photospheres, isotopes, folder] ==> '/' !in s
    requires forall s :: s in [stamp] + tail ==> '_' !in s && '/' !in s
    ensures var basename := Join(["p", "apstBA", stamp] + tail, '_');
      var telescope := if |stamp| > 0 && stamp[|stamp| - 1] == 's' then "lco25m" else "apo25m";
      ParseHeaderPath(Join(prefix + [code, photospheres, isotopes, folder, basename], '/'))
        == Ok(HeaderInfo(code, photospheres, isotopes, "", telescope, "BA", Date(2019, 11, 21), "combo5"))
  {
    var bparts := ["p", "apstBA", stamp] + tail;
    var basename := Join(bparts, '_');
    forall i | 0 <= i < |bparts| ensures '_' !in bparts[i] && '/' !in bparts[i] {
      if i >= 3 {
        assert bparts[i] == tail[i - 3] && tail[i - 3] in [stamp] + tail;
      } else if i == 2 {
        assert stamp in [stamp] + tail;
      }
    }
    SplitOfJoin(bparts, '_');
    NoSeparatorInJoin(bparts, '_', '/');
    assert forall s :: s in prefix + [code, photospheres, isotopes, folder, basename] ==>
      s in prefix + [code, photospheres, isotopes, folder] || s == basename;
    PathSplits(prefix, code, photospheres, isotopes, folder, basename);
    HeaderOfBa(PathParts(code, photospheres, isotopes, folder, basename), bparts, IntOf);
  }

  /** `parse_header_path` on the parts of a BA basename. */
  lemma HeaderOfBa(p: PathParts, parts: seq<string>, toInt: string -> Result<int, PyError>)
    requires |parts| >= 3 && parts[1] == "apstBA"
    ensures var telescope := if |parts[2]| > 0 && parts[2][|parts[2]| - 1] == 's' then "lco25m" else "apo25m";
      HeaderOf(p, parts, toInt) == Ok(HeaderInfo(p.code, p.photospheres, p.isotopes, "", telescope, "BA", Date(2019, 11, 21), "combo5"))
  {
    assert parts[1][4] == 'B' && parts[1][5..] == "A";
  }

  lemma HeaderOfParts(p: PathParts, gd: char, spectralType: string, created: Date, lsf: char, lco: bool, tail: seq<string>,
                      toInt: string -> Result<int, PyError>)
    requires 0 <= created.year - 2000 < 100 && ValidDate(created)
    requires !(gd == 'B' && spectralType == "A")
    requires toInt(TwoDigits(created.year - 2000)) == Ok(created.year - 2000)
    requires toInt(TwoDigits(created.month)) == Ok(created.month) && toInt(TwoDigits(created.day)) == Ok(created.day)
    ensures HeaderOf(p, BasenameParts(gd, spectralType, created, lsf, lco, tail), toInt)
      == Ok(HeaderInfo(p.code, p.photospheres, p.isotopes, [gd], if lco then "lco25m" else "apo25m", spectralType, created, [lsf]))
  {
    var bparts := BasenameParts(gd, spectralType, created, lsf, lco, tail);
    var date := bparts[2];
    assert Take(date, 2) == TwoDigits(created.year - 2000);
    assert Slice(date, 2, 4) == TwoDigits(created.month);
    assert Slice(date, 4, 6) == TwoDigits(created.day);
    assert Drop(bparts[3], 4) == (if lco then "s" else "");
    assert bparts[1][4] == gd && bparts[1][5..] == spectralType;
    HeaderOfDated(p, bparts, toInt, created.year - 2000, created.month, created.day);
  }

  /** `parse_header_path` on basename parts whose fields all read correctly. */
  lemma HeaderOfDated(p: PathParts, parts: seq<string>, toInt: string -> Result<int, PyError>, yy: int, mm: int, dd: int)
    requires |parts| >= 4 && |parts[1]| >= 5 && |parts[3]| >= 4
    requires !(parts[1][4] == 'B' && parts[1][5..] == "A")
    requires toInt(Take(parts[2], 2)) == Ok(yy) && toInt(Slice(parts[2], 2, 4)) == Ok(mm) && toInt(Slice(parts[2], 4, 6)) == Ok(dd)
    requires ValidDate(Date(2000 + yy, mm, dd))
    ensures HeaderOf(p, parts, toInt) == Ok(HeaderInfo(p.code, p.photospheres, p.isotopes, [parts[1][4]],
      if Drop(parts[3], 4) == "s" then "lco25m" else "apo25m", parts[1][5..], Date(2000 + yy, mm, dd), [parts[3][3]]))
  {
  }

  /** A join of parts without `c`, on a separator other than `c`, holds no `c`. */
  lemma {:induction false} NoSeparatorInJoin(parts: seq<string>, sep: char, c: char)
    requires sep != c
    requires forall i :: 0 <= i < |parts| ==> c !in parts[i]
    ensures c !in Join(parts, sep)
  {
    if |parts| > 1 {
      NoSeparatorInJoin(parts[1..], sep, c);
    }
  }
}
