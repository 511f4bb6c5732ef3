/**
  The FERRE keywords for measuring one chemical element (`get_abundance_keywords`):
  which header labels vary, which are frozen, and how the other abundances
  are tied to the one that varies.
 */
module Abundances {
  import opened Wrappers
  import opened Text
  import opened Values

  /** A FERRE tie: the header label tied, its TTIE0 and its TTIE coefficient. */
  datatype Tie = Tie(tied: string, ttie0: int, ttie: int)

  /** The controls of one element: the labels that vary (`INDV_LABEL`) and its ties (`TIES`, empty when absent). */
  datatype Control = Control(indv: seq<string>, ties: seq<Tie>)

  /** The header label of the alpha elements. */
  const Alpha := "O Mg Si S Ca Ti"

  /** The ties of the elements measured through the overall metallicity: C, N and the alpha elements follow it. */
  const MetalTies := [Tie("C", 0, -1), Tie("N", 0, -1), Tie(Alpha, 0, -1)]

  /** The control table, adopted from DR16: `None` for an element it does not know. */
  function Controls(element: string): (c: Option<Control>)
    ensures c.Some? ==> |c.value.indv| >= 1 && (c.value.ties == [] || c.value.ties == MetalTies)
  {
    if element in {"Al", "Co", "Cr", "Cu", "Fe", "Ge", "K", "Mn", "Na", "Nd", "Ni", "P", "Rb", "V", "Yb"} then
      Some(Control(["METALS"], MetalTies))
    else if element in {"Ca", "Mg", "O", "Si", "S", "TiII", "Ti"} then Some(Control([Alpha], []))
    else if element == "Ce" then Some(Control(["METALS"], []))
    else if element in {"CI", "C"} then Some(Control(["C"], []))
    else if element == "CN" then Some(Control(["C", Alpha], []))
    else if element == "N" then Some(Control(["N"], []))
    else None
  }

  /** `labels.index(name)`: the first position of `name`, or `None` where Python raises ValueError. */
  function IndexOf(labels: seq<string>, name: string): (r: Option<nat>)
    ensures r.None? <==> name !in labels
    ensures r.Some? ==> r.value < |labels| && labels[r.value] == name && name !in labels[..r.value]
  {
    if labels == [] then None
    else if labels[0] == name then Some(0)
    else
      var r := IndexOf(labels[1..], name);
      assert labels == [labels[0]] + labels[1..];
      if r.None? then None else Some(r.value + 1)
  }

  /** `get_header_index(name)`: FERRE counts header labels from 1. */
  function HeaderIndex(labels: seq<string>, name: string): (r: Result<int, PyError>)
    ensures r.Err? <==> name !in labels
    ensures r.Err? ==> r.error == ValueError
    ensures r.Ok? ==> 1 <= r.value <= |labels| && labels[r.value - 1] == name && name !in labels[..r.value - 1]
  {
    var i := IndexOf(labels, name);
    if i.None? then Err(ValueError) else Ok(1 + i.value)
  }

  /** `[get_header_index(label) for label in c["INDV_LABEL"]]` */
  function Indices(labels: seq<string>, wanted: seq<string>): (r: Result<seq<int>, PyError>)
    ensures r.Err? <==> exists l :: l in wanted && l !in labels
    ensures r.Err? ==> r.error == ValueError
    ensures r.Ok? ==> |r.value| == |wanted| && forall j :: 0 <= j < |wanted| ==> Ok(r.value[j]) == HeaderIndex(labels, wanted[j])
  {
    if wanted == [] then Ok([])
    else
      match HeaderIndex(labels, wanted[0])
      case Err(e) => Err(e)
      case Ok(first) =>
        match Indices(labels, wanted[1..])
        case Err(e) => Err(e)
        case Ok(rest) => Ok([first] + rest)
  }

  /** A FERRE keyword and its value, in the order `ferre_kwds` receives them. */
  type Keyword = (string, int)

  /** The key of the `kind`-th keyword (0 INDTIE, 1 TTIE0, 2 TTIE) of the `i`-th tie, formatted as `f"INDTIE({i:.0f})"` and so on. */
  function TieKey(i: nat, kind: nat, indv0: int): string {
    TiePrefix(kind) + NatToString(i) + TieSuffix(kind, indv0)
  }

  /** What comes before the tie number in a key. */
  function TiePrefix(kind: nat): string {
    if kind == 0 then "INDTIE(" else if kind == 1 then "TTIE0(" else "TTIE("
  }

  /** What comes after the tie number in a key: TTIE keys also name the first varied label. */
  function TieSuffix(kind: nat, indv0: int): string {
    if kind < 2 then ")" else "," + IntToString(indv0) + ")"
  }

  /** The keywords of the `i`-th tie (counting from 1), tied back to the header label at `indv0`. */
  function TieKeywords(i: nat, tie: Tie, labels: seq<string>, indv0: int): (r: Result<seq<Keyword>, PyError>)
    ensures r.Err? <==> tie.tied !in labels
    ensures r.Ok? ==> |r.value| == 3
  {
    match HeaderIndex(labels, tie.tied)
    case Err(e) => Err(e)
    case Ok(j) => Ok([(TieKey(i, 0, indv0), j), (TieKey(i, 1, indv0), tie.ttie0), (TieKey(i, 2, indv0), tie.ttie)])
  }

  /** The keywords of all the ties, in order, or the ValueError of the first label the header lacks. */
  function TiesKeywords(ties: seq<Tie>, labels: seq<string>, indv0: int): (r: Result<seq<Keyword>, PyError>)
    ensures r.Ok? <==> forall k :: 0 <= k < |ties| ==> ties[k].tied in labels
    ensures r.Ok? ==> |r.value| == 3 * |ties|
    ensures r.Err? ==> r.error == ValueError
  {
    if ties == [] then Ok([])
    else
      var n := |ties| - 1;
      AllTiedLast(ties, labels);
      match TiesKeywords(ties[..n], labels, indv0)
      case Err(e) => Err(e)
      case Ok(kwds) =>
        match TieKeywords(|ties|, ties[n], labels, indv0)
        case Err(e) => Err(e)
        case Ok(more) => Ok(kwds + more)
  }

  /** Every tied label is in the header exactly when those of the earlier ties and of the last one are. */
  lemma AllTiedLast(ties: seq<Tie>, labels: seq<string>)
    requires ties != []
    ensures var n := |ties| - 1;
      (forall k :: 0 <= k < |ties| ==> ties[k].tied in labels) <==>
      (forall k :: 0 <= k < n ==> ties[..n][k].tied in labels) && ties[n].tied in labels
  {
    var n := |ties| - 1;
    assert forall k :: 0 <= k < n ==> ties[..n][k] == ties[k];
  }

  /** What `get_abundance_keywords` returns: the frozen labels and the FERRE keywords. */
  datatype Keywords = Keywords(frozen: map<string, bool>, ferre: seq<Keyword>)

  /** `get_abundance_keywords(element, header_label_names)`: ValueError for an element the table does not know. */
  function KeywordsFor(element: string, labels: seq<string>): (r: Result<Keywords, PyError>)
    ensures Controls(element).None? ==> r == Err(ValueError)
    ensures Controls(element).Some? ==> r == KeywordsOf(Controls(element).value, labels)
  {
    match Controls(element)
    case None => Err(ValueError)
    case Some(c) => KeywordsOf(c, labels)
  }

  /** `get_abundance_keywords` once the element's controls `c` are known. */
  function KeywordsOf(c: Control, labels: seq<string>): (r: Result<Keywords, PyError>)
    requires |c.indv| >= 1
    ensures r.Err? ==> r.error == ValueError
    ensures r.Ok? ==> r.value.frozen.Keys == set l | l in labels
    ensures r.Ok? ==> forall l :: l in r.value.frozen ==> (r.value.frozen[l] <==> l !in c.indv)
  {
    match Indices(labels, c.indv)
    case Err(e) => Err(e)
    case Ok(indv) =>
      match TiesKeywords(c.ties, labels, indv[0])
      case Err(e) => Err(e)
      case Ok(ties) =>
        Ok(Keywords(map l | l in labels :: l !in c.indv, [("NTIE", |c.ties|), ("TYPETIE", 1)] + ties))
  }

  /** The loop over the ties in `get_abundance_keywords`. */
  method TieLoop(ties: seq<Tie>, labels: seq<string>, indv0: int) returns (r: Result<seq<Keyword>, PyError>)
    ensures r == TiesKeywords(ties, labels, indv0)
  {
    var kwds: seq<Keyword> := [];
    var i := 0;
    while i < |ties|
      invariant 0 <= i <= |ties|
      invariant TiesKeywords(ties[..i], labels, indv0) == Ok(kwds)
    {
      assert ties[..i + 1][..i] == ties[..i];
      var more := TieKeywords(i + 1, ties[i], labels, indv0);
      if more.Err? {
        TiesStuck(ties, labels, indv0, i + 1);
        return Err(more.error);
      }
      kwds := kwds + more.value;
      i := i + 1;
    }
    assert ties[..i] == ties;
    r := Ok(kwds);
  }

  /** `get_abundance_keywords(element, header_label_names)`. */
  method GetAbundanceKeywords(element: string, labels: seq<string>) returns (r: Result<Keywords, PyError>)
    ensures r == KeywordsFor(element, labels)
  {
    var c := Controls(element);
    if c.None? {
      return Err(ValueError);
    }
    var indv := Indices(labels, c.value.indv);
    assert KeywordsFor(element, labels) == KeywordsOf(c.value, labels);
    if indv.Err? {
      return Err(indv.error);
    }
    var ties := TieLoop(c.value.ties, labels, indv.value[0]);
    if ties.Err? {
      return Err(ties.error);
    }
    var frozen := map l | l in labels :: l !in c.value.indv;
    r := Ok(Keywords(frozen, [("NTIE", |c.value.ties|), ("TYPETIE", 1)] + ties.value));
  }

  /** Once a tie fails, the later ties change nothing. */
  lemma {:induction false} TiesStuck(ties: seq<Tie>, labels: seq<string>, indv0: int, n: nat)
    requires n <= |ties| && TiesKeywords(ties[..n], labels, indv0).Err?
    ensures TiesKeywords(ties, labels, indv0) == TiesKeywords(ties[..n], labels, indv0)
    decreases |ties| - n
  {
    if n < |ties| {
      assert ties[..n + 1][..n] == ties[..n];
      TiesStuck(ties, labels, indv0, n + 1);
    } else {
      assert ties[..n] == ties;
    }
  }

  /** The last tie adds its three keywords, unless an earlier tie or it fails. */
  lemma TiesKeywordsLast(ties: seq<Tie>, labels: seq<string>, indv0: int)
    requires ties != []
    ensures var before := TiesKeywords(ties[..|ties| - 1], labels, indv0);
      var more := TieKeywords(|ties|, ties[|ties| - 1], labels, indv0);
      TiesKeywords(ties, labels, indv0) ==
        if before.Err? then before else if more.Err? then Err(more.error) else Ok(before.value + more.value)
  {
  }

  /**
    The keywords of the tie at position `m` (from 0): INDTIE, the tied
    label's header index; TTIE0, the tie's TTIE0; TTIE, its coefficient.
   */
  lemma {:induction false} TiesKeywordsAt(ties: seq<Tie>, labels: seq<string>, indv0: int, m: nat)
    requires TiesKeywords(ties, labels, indv0).Ok? && m < |ties|
    ensures ties[m].tied in labels
    ensures var kwds := TiesKeywords(ties, labels, indv0).value;
      |kwds| == 3 * |ties|
      && kwds[3 * m] == (TieKey(m + 1, 0, indv0), HeaderIndex(labels, ties[m].tied).value)
      && kwds[3 * m + 1] == (TieKey(m + 1, 1, indv0), ties[m].ttie0)
      && kwds[3 * m + 2] == (TieKey(m + 1, 2, indv0), ties[m].ttie)
  {
    var init := ties[..|ties| - 1];
    assert forall k :: 0 <= k < |init| ==> init[k] == ties[k];
    if m < |ties| - 1 {
      TiesKeywordsAt(init, labels, indv0, m);
    }
  }

  /** `get_abundance_keywords` succeeds exactly for a known element whose labels, varied and tied, are all in the header. */
  lemma KeywordsOk(element: string, labels: seq<string>)
    ensures KeywordsFor(element, labels).Ok? <==>
      && Controls(element).Some?
      && (forall l :: l in Controls(element).value.indv ==> l in labels)
      && (forall k :: 0 <= k < |Controls(element).value.ties| ==> Controls(element).value.ties[k].tied in labels)
  {
    if Controls(element).Some? {
      KeywordsOfOk(Controls(element).value, labels);
    }
  }

  lemma KeywordsOfOk(c: Control, labels: seq<string>)
    requires |c.indv| >= 1
    ensures KeywordsOf(c, labels).Ok? <==>
      (forall l :: l in c.indv ==> l in labels) && (forall k :: 0 <= k < |c.ties| ==> c.ties[k].tied in labels)
  {
  }

  /** NTIE counts the ties, which are none or three, TYPETIE is 1, and the ties' keywords follow. */
  lemma KeywordsCounts(element: string, labels: seq<string>)
    requires KeywordsFor(element, labels).Ok?
    ensures var ties := Controls(element).value.ties; var ferre := KeywordsFor(element, labels).value.ferre;
      && |ties| in {0, 3}
      && |ferre| == 2 + 3 * |ties|
      && ferre[0] == ("NTIE", |ties|) && ferre[1] == ("TYPETIE", 1)
  {
    KeywordsOfCounts(Controls(element).value, labels);
  }

  lemma KeywordsOfCounts(c: Control, labels: seq<string>)
    requires |c.indv| >= 1 && KeywordsOf(c, labels).Ok?
    ensures var ferre := KeywordsOf(c, labels).value.ferre;
      |ferre| == 2 + 3 * |c.ties| && ferre[0] == ("NTIE", |c.ties|) && ferre[1] == ("TYPETIE", 1)
  {
  }

  /**
    The tie at position `m` (from 0) gives, after NTIE and TYPETIE,
    INDTIE(m+1), the header index of the label it ties, then TTIE0(m+1) and
    TTIE(m+1,n) with the tie's values (0 and -1 for every tie in the table),
    where n is the header index of the first varied label.
   */
  lemma KeywordsTies(c: Control, labels: seq<string>, m: nat)
    requires |c.indv| >= 1 && KeywordsOf(c, labels).Ok?
    requires m < |c.ties|
    ensures c.ties[m].tied in labels && c.indv[0] in labels
    ensures var ferre := KeywordsOf(c, labels).value.ferre; var indv0 := HeaderIndex(labels, c.indv[0]).value;
      && |ferre| == 2 + 3 * |c.ties|
      && ferre[2 + 3 * m] == (TieKey(m + 1, 0, indv0), HeaderIndex(labels, c.ties[m].tied).value)
      && ferre[3 + 3 * m] == (TieKey(m + 1, 1, indv0), c.ties[m].ttie0)
      && ferre[4 + 3 * m] == (TieKey(m + 1, 2, indv0), c.ties[m].ttie)
  {
    var indv0 := Indices(labels, c.indv).value[0];
    TiesKeywordsAt(c.ties, labels, indv0, m);
  }

  /** Every tie in the table sets TTIE0 to 0 and TTIE to -1. */
  lemma TableTies(element: string, k: nat)
    requires Controls(element).Some? && k < |Controls(element).value.ties|
    ensures Controls(element).value.ties[k].ttie0 == 0 && Controls(element).value.ties[k].ttie == -1
  {
    assert Controls(element).value.ties == MetalTies;
  }

  /** Strings that agree around their middles agree in the middle. */
  lemma MiddleEqual(p: string, m: string, m': string, q: string)
    requires p + m + q == p + m' + q
    ensures m == m'
  {
    var w, w' := p + m + q, p + m' + q;
    assert |m| == |m'|;
    assert m == w[|p|..|p| + |m|] && m' == w'[|p|..|p| + |m'|];
  }

  /** Which keyword a key is: INDTIE keys start with "I", TTIE0 keys have "0" fifth, TTIE keys "(". */
  lemma TieKeyKind(i: nat, kind: nat, indv0: int)
    requires kind < 3
    ensures |TieKey(i, kind, indv0)| >= 5
    ensures TieKey(i, kind, indv0)[0] == 'I' <==> kind == 0
    ensures kind != 0 ==> TieKey(i, kind, indv0)[0] == 'T' && TieKey(i, kind, indv0)[1] == 'T'
    ensures kind != 0 ==> (TieKey(i, kind, indv0)[4] == '0' <==> kind == 1)
  {
    var p := TiePrefix(kind);
    assert |p| >= 5;
    assert forall k :: 0 <= k < |p| ==> TieKey(i, kind, indv0)[k] == p[k];
  }

  /** Different ties, or different keywords of one tie, have different keys. */
  lemma TieKeyInjective(i: nat, a: nat, j: nat, b: nat, indv0: int)
    requires a < 3 && b < 3
    requires TieKey(i, a, indv0) == TieKey(j, b, indv0)
    ensures i == j && a == b
  {
    TieKeyKind(i, a, indv0);
    TieKeyKind(j, b, indv0);
    assert a == b;
    MiddleEqual(TiePrefix(a), NatToString(i), NatToString(j), TieSuffix(a, indv0));
    NatToStringInjective(i, j);
  }

  /** The key of the `kind`-th keyword of the tie at position `m`. */
  lemma TieKeyAt(c: Control, labels: seq<string>, m: nat, kind: nat)
    requires |c.indv| >= 1 && KeywordsOf(c, labels).Ok? && m < |c.ties| && kind < 3
    ensures c.indv[0] in labels
    ensures var ferre := KeywordsOf(c, labels).value.ferre;
      2 + 3 * m + kind < |ferre| && ferre[2 + 3 * m + kind].0 == TieKey(m + 1, kind, HeaderIndex(labels, c.indv[0]).value)
  {
    KeywordsTies(c, labels, m);
    var ferre := KeywordsOf(c, labels).value.ferre;
    var n := 2 + 3 * m;
    if kind == 0 {
      assert ferre[n + kind] == ferre[n];
    } else if kind == 1 {
      assert ferre[n + kind] == ferre[n + 1];
    } else {
      assert ferre[n + kind] == ferre[n + 2];
    }
  }

  /** The tie (counting from 1) whose keyword sits at position `j` of the FERRE keywords. */
  function TieOf(j: nat): nat
    requires j >= 2
  {
    (j - 2) / 3 + 1
  }

  /** The kind of the keyword at position `j`. */
  function KindOf(j: nat): nat
    requires j >= 2
  {
    (j - 2) % 3
  }

  /** "NTIE", "TYPETIE", then keys of ties in order are all different. */
  lemma KeysDistinct(ferre: seq<Keyword>, indv0: int)
    requires |ferre| >= 2 && ferre[0].0 == "NTIE" && ferre[1].0 == "TYPETIE"
    requires forall j :: 2 <= j < |ferre| ==> ferre[j].0 == TieKey(TieOf(j), KindOf(j), indv0)
    ensures forall j, j' :: 0 <= j < j' < |ferre| ==> ferre[j].0 != ferre[j'].0
  {
    forall j, j' | 0 <= j < j' < |ferre| ensures ferre[j].0 != ferre[j'].0 {
      KeyPairDistinct(ferre, indv0, j, j');
    }
  }

  /** Two positions of such a keyword list hold different keys. */
  lemma KeyPairDistinct(ferre: seq<Keyword>, indv0: int, j: nat, j': nat)
    requires |ferre| >= 2 && ferre[0].0 == "NTIE" && ferre[1].0 == "TYPETIE"
    requires forall j :: 2 <= j < |ferre| ==> ferre[j].0 == TieKey(TieOf(j), KindOf(j), indv0)
    requires j < j' < |ferre|
    ensures ferre[j].0 != ferre[j'].0
  {
    if j' >= 2 {
      TieKeyKind(TieOf(j'), KindOf(j'), indv0);
      if j >= 2 {
        if ferre[j].0 == ferre[j'].0 {
          TieKeyInjective(TieOf(j), KindOf(j), TieOf(j'), KindOf(j'), indv0);
        }
      } else if j == 0 {
        assert ferre[j].0[0] == 'N';
      } else {
        assert ferre[j].0[1] == 'Y';
      }
    }
  }

  /**
    No FERRE keyword is written twice, so the dictionary `ferre_kwds` holds
    every keyword listed, with the value listed.
   */
  lemma KeywordsDistinct(c: Control, labels: seq<string>)
    requires |c.indv| >= 1 && KeywordsOf(c, labels).Ok?
    ensures var ferre := KeywordsOf(c, labels).value.ferre;
      forall j, j' :: 0 <= j < j' < |ferre| ==> ferre[j].0 != ferre[j'].0
  {
    var ferre := KeywordsOf(c, labels).value.ferre;
    KeywordsOfCounts(c, labels);
    if c.ties == [] {
      KeysDistinct(ferre, 0);
    } else {
      TieKeyAt(c, labels, 0, 0);
      var indv0 := HeaderIndex(labels, c.indv[0]).value;
      forall j | 2 <= j < |ferre| ensures ferre[j].0 == TieKey(TieOf(j), KindOf(j), indv0) {
        var m, k := TieOf(j) - 1, KindOf(j);
        assert j == 2 + 3 * m + k;
        TieKeyAt(c, labels, m, k);
      }
      KeysDistinct(ferre, indv0);
    }
  }
}
