// The engineering tools of the configuration CLI (cli/common/base_tool.py): comparing two SCF
// dictionaries, building the parameter catalog `mo_param_dict` and the formula catalog from
// the rows of the parameter spreadsheet, and reading the release version off a file name.

module BaseTool {
  import opened Wrappers
  import opened Text
  import Session
  import Rules
  import Schema

  // ----- _compare_scf_dicts -----

  /** An SCF read as a dictionary: distName to the texts of its parameters (None for no text). */
  type ScfDict = map<string, map<string, Option<string>>>

  /** The changed values of one shared object: every parameter of A whose value in B is present
      and different, with the old and the new value. */
  function DiffOn(pa: map<string, Option<string>>, pb: map<string, Option<string>>, ks: set<string>): map<string, (Option<string>, string)>
  {
    map k | k in ks && k in pa && k in pb && pb[k].Some? && pb[k] != pa[k] :: (pa[k], pb[k].value)
  }

  function Diff(pa: map<string, Option<string>>, pb: map<string, Option<string>>): map<string, (Option<string>, string)>
  {
    DiffOn(pa, pb, pa.Keys)
  }

  /** The shared objects with at least one changed value. */
  function ChangedOn(a: ScfDict, b: ScfDict, ds: set<string>): map<string, map<string, (Option<string>, string)>>
  {
    map d | d in ds && d in a && d in b && Diff(a[d], b[d]) != map[] :: Diff(a[d], b[d])
  }

  function Changed(a: ScfDict, b: ScfDict): map<string, map<string, (Option<string>, string)>>
  {
    ChangedOn(a, b, a.Keys * b.Keys)
  }

  /** A parameter is reported for an object exactly when the object is in both dictionaries,
      the parameter is in A, and B has a different, present value for it; a parameter only in B
      is never reported. */
  lemma ChangedReports(a: ScfDict, b: ScfDict, d: string, k: string)
    ensures (d in Changed(a, b) && k in Changed(a, b)[d])
            <==> d in a && d in b && k in a[d] && k in b[d] && b[d][k].Some? && b[d][k] != a[d][k]
    ensures d in Changed(a, b) && k in Changed(a, b)[d] ==> Changed(a, b)[d][k] == (a[d][k], b[d][k].value)
    ensures d in a && d in b && k !in a[d] ==> d !in Changed(a, b) || k !in Changed(a, b)[d]
  {
    if d in a && d in b && k in a[d] && k in b[d] && b[d][k].Some? && b[d][k] != a[d][k] {
      assert k in Diff(a[d], b[d]);
    }
  }

  /** Comparing a dictionary with itself reports nothing. */
  lemma CompareSelf(a: ScfDict)
    ensures Changed(a, a) == map[]
  {
    forall d | d in a ensures Diff(a[d], a[d]) == map[] {
    }
  }

  /** `sorted(s)`: the members of a set in increasing order. */
  method SortedMembers(s: set<string>) returns (r: seq<string>)
    ensures Rules.StrictlySorted(r)
    ensures forall x :: x in r <==> x in s
  {
    r := [];
    var rest := s;
    while rest != {}
      invariant rest <= s
      invariant Rules.StrictlySorted(r)
      invariant forall x :: x in r <==> x in s && x !in rest
      decreases rest
    {
      var x :| x in rest;
      Rules.InsertDistinctSorted(x, r);
      r := Rules.InsertDistinct(x, r);
      rest := rest - {x};
    }
  }

  /** The changed values of one shared object, parameter by parameter. */
  method DiffOf(pa: map<string, Option<string>>, pb: map<string, Option<string>>) returns (diff: map<string, (Option<string>, string)>)
    ensures diff == Diff(pa, pb)
  {
    diff := map[];
    var rest := pa.Keys;
    while rest != {}
      invariant rest <= pa.Keys
      invariant diff == DiffOn(pa, pb, pa.Keys - rest)
      decreases rest
    {
      var k :| k in rest;
      var v2 := if k in pb then pb[k] else None;
      if v2.Some? && v2 != pa[k] {
        diff := diff[k := (pa[k], v2.value)];
      }
      rest := rest - {k};
      assert diff == DiffOn(pa, pb, pa.Keys - rest);
    }
    assert pa.Keys - rest == pa.Keys;
  }

  /** `_compare_scf_dicts`: the distNames only in B and only in A, each sorted, and the changed
      values of the shared objects. */
  method CompareScfDicts(a: ScfDict, b: ScfDict)
    returns (onlyInB: seq<string>, onlyInA: seq<string>, changed: map<string, map<string, (Option<string>, string)>>)
    ensures Rules.StrictlySorted(onlyInB) && forall d :: d in onlyInB <==> d in b && d !in a
    ensures Rules.StrictlySorted(onlyInA) && forall d :: d in onlyInA <==> d in a && d !in b
    ensures changed == Changed(a, b)
  {
    onlyInB := SortedMembers(b.Keys - a.Keys);
    onlyInA := SortedMembers(a.Keys - b.Keys);
    changed := map[];
    var shared := a.Keys * b.Keys;
    var rest := shared;
    while rest != {}
      invariant rest <= shared
      invariant changed == ChangedOn(a, b, shared - rest)
      decreases rest
    {
      var d :| d in rest;
      var diff := DiffOf(a[d], b[d]);
      if diff != map[] {
        changed := changed[d := diff];
      }
      ChangedOnStep(a, b, shared - rest, d);
      assert shared - (rest - {d}) == (shared - rest) + {d};
      rest := rest - {d};
    }
    assert shared - rest == shared;
  }

  /** One more shared object compared. */
  lemma ChangedOnStep(a: ScfDict, b: ScfDict, ds: set<string>, d: string)
    requires d in a && d in b && d !in ds
    ensures ChangedOn(a, b, ds + {d})
            == if Diff(a[d], b[d]) != map[] then ChangedOn(a, b, ds)[d := Diff(a[d], b[d])] else ChangedOn(a, b, ds)
  {
  }

  // ----- the parameter catalog (do_excel_to_dict_mo) -----

  const Techs := {"SRAN", "4G", "5G", "LTE"}

  /** One spreadsheet row, by column; a blank cell is None. */
  datatype MoSheetRow = MoSheetRow(first: Option<string>, tech: Option<string>, name: Option<string>,
                                   moPath: Option<string>, category: Option<string>,
                                   parentStructure: Option<string>, ptype: Option<string>,
                                   multiplicity: Option<string>, range: Option<string>,
                                   default: Option<string>)

  /** A kept row: the class is the last segment of the MO path and the parent the one before. */
  datatype RawRow = RawRow(moClass: string, parentMo: Option<string>, name: string,
                           parent: Option<string>, ptype: Option<string>, default: Option<string>,
                           required: bool, multiplicity: string, range: Option<string>)

  /** A text cell stripped, None when blank. */
  function StrippedCell(c: Option<string>): (r: Option<string>)
    ensures Session.Truthy(c) ==> r == Some(Strip(c.value))
    ensures !Session.Truthy(c) ==> r.None?
  {
    if Session.Truthy(c) then Some(Strip(c.value)) else None
  }

  /** The row kept for the catalog, or None: removed rows, rows of another technology and rows
      without a name or an MO path are dropped. */
  function RawRowOf(row: MoSheetRow): (r: Option<RawRow>)
    ensures r.Some? <==> row.first != Some("Removed") && row.tech.Some? && row.tech.value in Techs
                         && Session.Truthy(row.name) && Session.Truthy(row.moPath)
    ensures r.Some? ==>
              var parts := Split(Strip(row.moPath.value), "/");
              r.value.moClass == parts[|parts| - 1]
              && (r.value.parentMo.Some? <==> |parts| > 1)
              && (|parts| > 1 ==> r.value.parentMo == Some(parts[|parts| - 2]))
              && r.value.name == row.name.value
              && r.value.required == (row.category == Some("Basic parameters"))
              && r.value.multiplicity == (if Session.Truthy(row.multiplicity) then Strip(row.multiplicity.value) else "1")
  {
    if row.first == Some("Removed") then None
    else if row.tech.None? || row.tech.value !in Techs then None
    else if !Session.Truthy(row.name) || !Session.Truthy(row.moPath) then None
    else Some(KeptRawRow(row, Split(Strip(row.moPath.value), "/")))
  }

  /** The fields of a kept row whose MO path has the segments `parts`. */
  function KeptRawRow(row: MoSheetRow, parts: seq<string>): (r: RawRow)
    requires Session.Truthy(row.name) && |parts| >= 1
    ensures r.moClass == parts[|parts| - 1]
            && (r.parentMo.Some? <==> |parts| > 1)
            && (|parts| > 1 ==> r.parentMo == Some(parts[|parts| - 2]))
            && r.name == row.name.value
            && r.required == (row.category == Some("Basic parameters"))
            && r.multiplicity == (if Session.Truthy(row.multiplicity) then Strip(row.multiplicity.value) else "1")
  {
    RawRow(parts[|parts| - 1], if |parts| > 1 then Some(parts[|parts| - 2]) else None,
           row.name.value, StrippedCell(row.parentStructure), row.ptype, StrippedCell(row.default),
           row.category == Some("Basic parameters"),
           if Session.Truthy(row.multiplicity) then Strip(row.multiplicity.value) else "1",
           StrippedCell(row.range))
  }

  function RawRowOptions(rows: seq<MoSheetRow>): (r: seq<Option<RawRow>>)
    ensures |r| == |rows| && forall j :: 0 <= j < |rows| ==> r[j] == RawRowOf(rows[j])
  {
    seq(|rows|, j requires 0 <= j < |rows| => RawRowOf(rows[j]))
  }

  lemma RawRowsSnoc(rows: seq<MoSheetRow>, i: nat)
    requires i < |rows|
    ensures var kept := RawRowOf(rows[i]);
            RawRows(rows[..i + 1]) == RawRows(rows[..i]) + (if kept.Some? then [kept.value] else [])
  {
    var a := RawRowOptions(rows[..i + 1]);
    assert a[..i] == RawRowOptions(rows[..i]);
    assert a[i] == RawRowOf(rows[i]);
  }

  /** The kept rows, in sheet order. */
  function RawRows(rows: seq<MoSheetRow>): seq<RawRow>
  {
    Somes(RawRowOptions(rows))
  }

  predicate Distinct(s: seq<string>)
  {
    forall i, j :: 0 <= i < j < |s| ==> s[i] != s[j]
  }

  /** No class appears twice among the children of a class. */
  predicate ChildrenDistinct(d: Schema.Dict)
  {
    forall c :: c in d ==> Distinct(d[c].children)
  }

  const EmptyClass := Schema.ClassInfo([], [])

  /** Every class stays, and so does every registration below it. */
  predicate Grows(d: Schema.Dict, r: Schema.Dict)
  {
    forall c :: c in d ==> c in r && forall x :: x in d[c].children ==> x in r[c].children
  }

  /** The class made present in the catalog. */
  function EnsureClass(d: Schema.Dict, c: string): (r: Schema.Dict)
    ensures c in r && Grows(d, r)
    ensures ChildrenDistinct(d) ==> ChildrenDistinct(r)
  {
    if c in d then d else d[c := EmptyClass]
  }

  /** `mo` registered among the children of `pm`, unless it is there already. */
  function AddChild(d: Schema.Dict, pm: string, mo: string): (r: Schema.Dict)
    ensures pm in r && mo in r[pm].children && Grows(d, r)
    ensures forall c :: c in d && c != pm ==> c in r && r[c] == d[c]
    ensures ChildrenDistinct(d) ==> ChildrenDistinct(r)
  {
    var info := if pm in d then d[pm] else EmptyClass;
    if mo in info.children then d[pm := info]
    else
      var kids := info.children + [mo];
      assert Distinct(info.children) ==> Distinct(kids);
      d[pm := info.(children := kids)]
  }

  /** The class of the row made present, and registered once among its parent's children. */
  function Register(d: Schema.Dict, mo: string, parentMo: Option<string>): (r: Schema.Dict)
    ensures mo in r && Grows(d, r)
    ensures Session.Truthy(parentMo) ==> parentMo.value in r && mo in r[parentMo.value].children
    ensures ChildrenDistinct(d) ==> ChildrenDistinct(r)
  {
    var d1 := EnsureClass(d, mo);
    if Session.Truthy(parentMo) then AddChild(d1, parentMo.value, mo) else d1
  }

  /** The row's parameter entry. */
  function EntryOf(row: RawRow): Schema.ParamEntry
  {
    Schema.Scalar(row.ptype, row.default, row.required, row.range)
  }

  /** The row placed among its class's parameters: as a field of the list named by its parent
      structure (a new list replaces any non-list entry of that name), or as a list with a single
      `val` field when its multiplicity is 2 or more, or as a scalar. None stands for the
      ValueError of a multiplicity that is not an integer, and for the KeyError of a structure
      whose entry is a scalar of data type "list". */
  function PlaceParam(ps: seq<(string, Schema.ParamEntry)>, row: RawRow): (r: Option<seq<(string, Schema.ParamEntry)>>)
    ensures Session.Truthy(row.parent) ==>
              var prior := Schema.Lookup(ps, row.parent.value);
              (r.None? <==> prior.Some? && prior.value.Scalar? && prior.value.ptype == Some("list"))
              && (r.Some? ==> exists fs :: Schema.Lookup(r.value, row.parent.value) == Some(Schema.ListParam(fs))
                                           && Schema.Lookup(fs, row.name) == Some(EntryOf(row)))
              && (r.Some? && prior.Some? && prior.value.ListParam? ==>
                    Schema.Lookup(r.value, row.parent.value) == Some(Schema.ListParam(Schema.Put(prior.value.fields, row.name, EntryOf(row)))))
              && (r.Some? && !(prior.Some? && prior.value.ListParam?) ==>
                    Schema.Lookup(r.value, row.parent.value) == Some(Schema.ListParam([(row.name, EntryOf(row))])))
    ensures !Session.Truthy(row.parent) && row.ptype != Some("structure") ==>
              (r.None? <==> ParseInt(row.multiplicity).None?)
              && (r.Some? && ParseInt(row.multiplicity).value >= 2 ==>
                    Schema.Lookup(r.value, row.name) == Some(Schema.ListParam([("val", EntryOf(row))])))
              && (r.Some? && ParseInt(row.multiplicity).value < 2 ==> Schema.Lookup(r.value, row.name) == Some(EntryOf(row)))
    ensures !Session.Truthy(row.parent) && row.ptype == Some("structure") ==>
              r.Some? && Schema.Lookup(r.value, row.name) == Some(EntryOf(row))
    ensures r.Some? ==> forall n :: n != row.name && !(Session.Truthy(row.parent) && n == row.parent.value) ==>
                                      Schema.Lookup(r.value, n) == Schema.Lookup(ps, n)
  {
    var e := EntryOf(row);
    if Session.Truthy(row.parent) then
      var par := row.parent.value;
      var prior := Schema.Lookup(ps, par);
      if prior.Some? && prior.value.ListParam? then
        Some(Schema.Put(ps, par, Schema.ListParam(Schema.Put(prior.value.fields, row.name, e))))
      else if prior.Some? && prior.value.ptype == Some("list") then None
      else Some(Schema.Put(ps, par, Schema.ListParam([(row.name, e)])))
    else if row.ptype != Some("structure") then
      match ParseInt(row.multiplicity)
      case None => None
      case Some(m) =>
        if m >= 2 then Some(Schema.Put(ps, row.name, Schema.ListParam([("val", e)])))
        else Some(Schema.Put(ps, row.name, e))
    else Some(Schema.Put(ps, row.name, e))
  }

  /** One kept row into the catalog. */
  function AddRow(d: Schema.Dict, row: RawRow): (r: Option<Schema.Dict>)
    ensures r.Some? ==> ChildrenDistinct(d) ==> ChildrenDistinct(r.value)
    ensures r.Some? ==> row.moClass in r.value
    ensures r.Some? && Session.Truthy(row.parentMo) ==>
              row.parentMo.value in r.value && row.moClass in r.value[row.parentMo.value].children
    ensures r.Some? ==> Grows(d, r.value)
  {
    var d1 := Register(d, row.moClass, row.parentMo);
    var info := d1[row.moClass];
    match PlaceParam(info.params, row)
    case None => None
    case Some(ps) => Some(d1[row.moClass := info.(params := ps)])
  }

  /** The catalog of the kept rows, in order; None once a row fails. */
  function Catalog(rows: seq<RawRow>): (r: Option<Schema.Dict>)
  {
    if rows == [] then Some(map[])
    else
      var n := |rows| - 1;
      match Catalog(rows[..n])
      case None => None
      case Some(d) => AddRow(d, rows[n])
  }

  /** In the catalog no class is listed twice below the same parent. */
  lemma {:induction false} CatalogChildrenDistinct(rows: seq<RawRow>)
    ensures Catalog(rows).Some? ==> ChildrenDistinct(Catalog(rows).value)
  {
    if rows != [] {
      CatalogChildrenDistinct(rows[..|rows| - 1]);
    }
  }

  /** Every kept row's class is a class of the catalog, and every kept row's parent lists it. */
  lemma {:induction false} CatalogHasClasses(rows: seq<RawRow>, j: nat)
    requires j < |rows| && Catalog(rows).Some?
    ensures rows[j].moClass in Catalog(rows).value
    ensures Session.Truthy(rows[j].parentMo) ==>
              rows[j].parentMo.value in Catalog(rows).value
              && rows[j].moClass in Catalog(rows).value[rows[j].parentMo.value].children
    decreases |rows|, 1
  {
    CatalogStep(rows);
    if j < |rows| - 1 {
      CatalogHasEarlier(rows, j);
    }
  }

  lemma {:induction false} CatalogHasEarlier(rows: seq<RawRow>, j: nat)
    requires j < |rows| - 1 && Catalog(rows).Some?
    ensures rows[j].moClass in Catalog(rows).value
    ensures Session.Truthy(rows[j].parentMo) ==>
              rows[j].parentMo.value in Catalog(rows).value
              && rows[j].moClass in Catalog(rows).value[rows[j].parentMo.value].children
    decreases |rows|, 0
  {
    var n := |rows| - 1;
    CatalogStep(rows);
    assert rows[..n][j] == rows[j];
    CatalogHasClasses(rows[..n], j);
    GrowsKeeps(Catalog(rows[..n]).value, Catalog(rows).value, rows[j]);
  }

  /** The catalog up to the last row grows into the catalog of all rows, which registers that row. */
  lemma CatalogStep(rows: seq<RawRow>)
    requires rows != [] && Catalog(rows).Some?
    ensures var n := |rows| - 1;
            Catalog(rows[..n]).Some? && Grows(Catalog(rows[..n]).value, Catalog(rows).value)
            && rows[n].moClass in Catalog(rows).value
            && (Session.Truthy(rows[n].parentMo) ==>
                  rows[n].parentMo.value in Catalog(rows).value
                  && rows[n].moClass in Catalog(rows).value[rows[n].parentMo.value].children)
  {
  }

  lemma GrowsKeeps(d: Schema.Dict, r: Schema.Dict, row: RawRow)
    requires Grows(d, r) && row.moClass in d
    requires Session.Truthy(row.parentMo) ==> row.parentMo.value in d && row.moClass in d[row.parentMo.value].children
    ensures row.moClass in r
    ensures Session.Truthy(row.parentMo) ==> row.parentMo.value in r && row.moClass in r[row.parentMo.value].children
  {
  }

  /** The sheet rows through the two passes of the converter. */
  method BuildMoParamDict(rows: seq<MoSheetRow>) returns (r: Option<Schema.Dict>)
    ensures r == Catalog(RawRows(rows))
  {
    var raw := KeptRows(rows);
    r := CatalogOfRows(raw);
  }

  /** The first pass: every row judged on its own, the kept ones in sheet order. */
  method KeptRows(rows: seq<MoSheetRow>) returns (raw: seq<RawRow>)
    ensures raw == RawRows(rows)
  {
    raw := [];
    var i := 0;
    while i < |rows|
      invariant 0 <= i <= |rows| && raw == RawRows(rows[..i])
    {
      RawRowsSnoc(rows, i);
      var kept := RawRowOf(rows[i]);
      if kept.Some? {
        raw := raw + [kept.value];
      }
      i := i + 1;
    }
    assert rows[..i] == rows;
  }

  /** The second pass: the kept rows registered one after the other; a row that fails ends it. */
  method CatalogOfRows(raw: seq<RawRow>) returns (r: Option<Schema.Dict>)
    ensures r == Catalog(raw)
  {
    var d: Schema.Dict := map[];
    var j := 0;
    while j < |raw|
      invariant 0 <= j <= |raw| && Catalog(raw[..j]) == Some(d)
    {
      assert raw[..j + 1][..j] == raw[..j];
      var next := AddRow(d, raw[j]);
      assert raw[..j + 1][j] == raw[j];
      if next.None? {
        CatalogNoneStays(raw, j + 1);
        return None;
      }
      d := next.value;
      j := j + 1;
    }
    assert raw[..j] == raw;
    r := Some(d);
  }

  lemma {:induction false} CatalogNoneStays(rows: seq<RawRow>, i: nat)
    requires i <= |rows| && Catalog(rows[..i]).None?
    ensures Catalog(rows).None?
    decreases |rows| - i
  {
    if i < |rows| {
      assert rows[..i + 1][..i] == rows[..i];
      CatalogNoneStays(rows, i + 1);
    } else {
      assert rows[..i] == rows;
    }
  }

  // ----- the formula catalog (do_excel_to_dict_formula) -----

  datatype FormulaSheetRow = FormulaSheetRow(tech: Option<string>, name: Option<string>, moClass: Option<string>,
                                             formula: Option<string>, default: Option<string>)

  datatype FormulaInfo = FormulaInfo(formula: string, default: Option<string>)

  /** The class of a formula row: the last segment of its stripped MO class path. */
  function FormulaClass(mo: string): string
  {
    var t := Strip(mo);
    if '/' in t then var parts := Split(t, "/"); parts[|parts| - 1] else t
  }

  /** The key of a qualifying row, `<class>::<name>`; None for rows that are dropped. */
  function FormulaKey(row: FormulaSheetRow): (r: Option<string>)
    ensures r.Some? <==> row.tech.Some? && row.tech.value in Techs && Session.Truthy(row.name)
                         && Session.Truthy(row.moClass) && Session.Truthy(row.formula)
    ensures r.Some? ==> r.value == FormulaClass(row.moClass.value) + "::" + Strip(row.name.value)
  {
    if row.tech.None? || row.tech.value !in Techs then None
    else if !Session.Truthy(row.name) || !Session.Truthy(row.moClass) || !Session.Truthy(row.formula) then None
    else Some(FormulaClass(row.moClass.value) + "::" + Strip(row.name.value))
  }

  function FormulaInfoOf(row: FormulaSheetRow): FormulaInfo
    requires row.formula.Some?
  {
    FormulaInfo(Strip(row.formula.value), if row.default.Some? then Some(Strip(row.default.value)) else None)
  }

  /** The formula catalog: each key gets the entry of the last row with that key. */
  function FormulaDictOf(rows: seq<FormulaSheetRow>): map<string, FormulaInfo>
  {
    if rows == [] then map[]
    else
      var n := |rows| - 1;
      var init := FormulaDictOf(rows[..n]);
      match FormulaKey(rows[n])
      case None => init
      case Some(k) => init[k := FormulaInfoOf(rows[n])]
  }

  /** A key is in the catalog exactly when some qualifying row has it. */
  lemma FormulaDictKeys(rows: seq<FormulaSheetRow>, k: string)
    ensures k in FormulaDictOf(rows) <==> exists j :: 0 <= j < |rows| && FormulaKey(rows[j]) == Some(k)
  {
    if k in FormulaDictOf(rows) {
      var j := FormulaDictWitness(rows, k);
    }
    if exists j :: 0 <= j < |rows| && FormulaKey(rows[j]) == Some(k) {
      var j :| 0 <= j < |rows| && FormulaKey(rows[j]) == Some(k);
      FormulaDictHas(rows, j);
    }
  }

  /** The key of every qualifying row is in the catalog. */
  lemma {:induction false} FormulaDictHas(rows: seq<FormulaSheetRow>, j: nat)
    requires j < |rows| && FormulaKey(rows[j]).Some?
    ensures FormulaKey(rows[j]).value in FormulaDictOf(rows)
  {
    FormulaDictHasKey(rows, j, FormulaKey(rows[j]).value);
  }

  lemma {:induction false} FormulaDictHasKey(rows: seq<FormulaSheetRow>, j: nat, k: string)
    requires j < |rows| && FormulaKey(rows[j]) == Some(k)
    ensures k in FormulaDictOf(rows)
  {
    var n := |rows| - 1;
    var init := FormulaDictOf(rows[..n]);
    if j == n {
      assert FormulaDictOf(rows) == init[k := FormulaInfoOf(rows[n])];
    } else {
      assert rows[..n][j] == rows[j];
      FormulaDictHasKey(rows[..n], j, k);
      match FormulaKey(rows[n])
      case None =>
        assert FormulaDictOf(rows) == init;
      case Some(k') =>
        assert FormulaDictOf(rows) == init[k' := FormulaInfoOf(rows[n])];
    }
  }

  /** A row that gives a key of the catalog. */
  lemma {:induction false} FormulaDictWitness(rows: seq<FormulaSheetRow>, k: string) returns (j: nat)
    requires k in FormulaDictOf(rows)
    ensures j < |rows| && FormulaKey(rows[j]) == Some(k)
  {
    var n := |rows| - 1;
    FormulaDictSnoc(rows);
    if FormulaKey(rows[n]) == Some(k) {
      j := n;
    } else {
      j := FormulaDictWitness(rows[..n], k);
      assert rows[..n][j] == rows[j];
    }
  }

  lemma FormulaDictSnoc(rows: seq<FormulaSheetRow>)
    requires rows != []
    ensures var n := |rows| - 1;
            var k := FormulaKey(rows[n]);
            FormulaDictOf(rows).Keys == FormulaDictOf(rows[..n]).Keys + (if k.Some? then {k.value} else {})
  {
  }

  /** The entry of a key is that of the last qualifying row with that key. */
  lemma FormulaDictLast(rows: seq<FormulaSheetRow>, j: nat)
    requires j < |rows| && FormulaKey(rows[j]).Some?
    requires forall i :: j < i < |rows| ==> FormulaKey(rows[i]) != FormulaKey(rows[j])
    ensures FormulaKey(rows[j]).value in FormulaDictOf(rows)
    ensures FormulaDictOf(rows)[FormulaKey(rows[j]).value] == FormulaInfoOf(rows[j])
  {
    FormulaDictLastKey(rows, j, FormulaKey(rows[j]).value);
  }

  lemma {:induction false} FormulaDictLastKey(rows: seq<FormulaSheetRow>, j: nat, k: string)
    requires j < |rows| && FormulaKey(rows[j]) == Some(k)
    requires forall i :: j < i < |rows| ==> FormulaKey(rows[i]) != Some(k)
    ensures k in FormulaDictOf(rows) && FormulaDictOf(rows)[k] == FormulaInfoOf(rows[j])
  {
    var n := |rows| - 1;
    if j == n {
      FormulaDictAtLast(rows);
    } else {
      var t := rows[..n];
      assert t[j] == rows[j];
      forall i | j < i < |t| ensures FormulaKey(t[i]) != Some(k) {
        assert t[i] == rows[i];
      }
      FormulaDictLastKey(t, j, k);
      FormulaDictOther(rows, k);
    }
  }

  /** The last row's key holds that row's entry. */
  lemma FormulaDictAtLast(rows: seq<FormulaSheetRow>)
    requires rows != [] && FormulaKey(rows[|rows| - 1]).Some?
    ensures var n := |rows| - 1;
            FormulaKey(rows[n]).value in FormulaDictOf(rows)
            && FormulaDictOf(rows)[FormulaKey(rows[n]).value] == FormulaInfoOf(rows[n])
  {
  }

  /** A key the last row does not give keeps the entry it had before that row. */
  lemma FormulaDictOther(rows: seq<FormulaSheetRow>, k: string)
    requires rows != [] && FormulaKey(rows[|rows| - 1]) != Some(k)
    requires k in FormulaDictOf(rows[..|rows| - 1])
    ensures k in FormulaDictOf(rows) && FormulaDictOf(rows)[k] == FormulaDictOf(rows[..|rows| - 1])[k]
  {
  }

  method BuildFormulaDict(rows: seq<FormulaSheetRow>) returns (m: map<string, FormulaInfo>)
    ensures m == FormulaDictOf(rows)
  {
    m := map[];
    var i := 0;
    while i < |rows|
      invariant 0 <= i <= |rows| && m == FormulaDictOf(rows[..i])
    {
      assert rows[..i + 1][..i] == rows[..i];
      assert rows[..i + 1][i] == rows[i];
      var k := FormulaKey(rows[i]);
      if k.Some? {
        m := m[k.value := FormulaInfoOf(rows[i])];
      }
      i := i + 1;
    }
    assert rows[..i] == rows;
  }

  // ----- the version in a file name -----

  predicate IsVersionPart(p: string)
  {
    StartsWith(p, "24") || StartsWith(p, "25")
  }

  function FirstVersion(parts: seq<string>, i: nat): (r: Option<nat>)
    ensures r.Some? ==> i <= r.value < |parts| && IsVersionPart(parts[r.value])
    ensures r.Some? ==> forall j :: i <= j < r.value ==> !IsVersionPart(parts[j])
    ensures r.None? ==> forall j :: i <= j < |parts| ==> !IsVersionPart(parts[j])
    decreases |parts| - i
  {
    if i >= |parts| then None
    else if IsVersionPart(parts[i]) then Some(i)
    else FirstVersion(parts, i + 1)
  }

  /** The version of a spreadsheet: the first `_`-separated part starting with "24" or "25", or
      "unknown". */
  function VersionOf(filename: string): (r: string)
    ensures var parts := Split(filename, "_");
            var f := FirstVersion(parts, 0);
            (f.None? ==> r == "unknown") && (f.Some? ==> r == parts[f.value] && IsVersionPart(r))
  {
    var parts := Split(filename, "_");
    match FirstVersion(parts, 0)
    case None => "unknown"
    case Some(j) => parts[j]
  }

  method ExtractVersion(filename: string) returns (version: string)
    ensures version == VersionOf(filename)
  {
    version := "unknown";
    var parts := Split(filename, "_");
    var i := 0;
    while i < |parts|
      invariant 0 <= i <= |parts|
      invariant FirstVersion(parts, 0) == FirstVersion(parts, i)
    {
      if IsVersionPart(parts[i]) {
        version := parts[i];
        return;
      }
      i := i + 1;
    }
  }
}
