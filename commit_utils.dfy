// The client's commit helpers (cli/common/util/commit_utils.py) beyond the formula functions of
// module Formula: translating every catalogued value of a tree through its formula
// (`generate_translated_tree`), the disabled required-parameter check, and turning a tree back
// into an editor script (`generate_cli_script_from_xml` and its string variant).

module CommitUtils {
  import opened Wrappers
  import opened Text
  import opened Tree
  import Formula
  import Schema
  import Rules
  import opened Session

  // ----- generate_translated_tree -----

  /** Which formula function `generate_translated_tree` applies; any other mode keeps the value. */
  datatype Mode = Once | Twice | Reverse | OtherMode

  /** The catalog class of an object: `cls.split(':')[1]` when the class has a namespace prefix. */
  function ClassKey(cls: string): (r: string)
    ensures ':' !in cls ==> r == cls
  {
    var parts := Split(cls, ":");
    if ':' !in cls then
      SplitFree(cls, ':');
      cls
    else if |parts| >= 2 then parts[1] else cls
  }

  /** The catalog entry for a parameter of class `cls`, keyed `(cls, name)` */
  function EntryOf(dict: FormulaDict, cls: string, name: string): Option<FormulaEntry>
  {
    if [cls, name] in dict then Some(dict[[cls, name]]) else None
  }

  /** The new text of a stripped, non-empty value. The formula functions catch their own
      failures, so the catalog default is never used. */
  function Apply(value: string, f: Formula.Formula, mode: Mode, showFloat: real -> string): string
  {
    match mode
    case Once => Formula.ClientOnce(value, f)
    case Twice => Formula.ClientTwice(value, f)
    case Reverse => Formula.ClientReverse(value, f, showFloat)
    case OtherMode => value
  }

  /** One `p`: rewritten when its key is catalogued and its stripped text is non-empty. */
  function TranslateP(p: P, cls: string, dict: FormulaDict, mode: Mode, showFloat: real -> string): (r: P)
    ensures r.name == p.name
    ensures EntryOf(dict, cls, p.name).None? || Strip(p.text) == "" ==> r == p
  {
    match EntryOf(dict, cls, p.name)
    case None => p
    case Some(e) =>
      var value := Strip(p.text);
      if value == "" then p else P(p.name, Apply(value, e.formula, mode, showFloat))
  }

  function TranslatePs(ps: seq<P>, cls: string, dict: FormulaDict, mode: Mode, showFloat: real -> string): seq<P>
  {
    seq(|ps|, j requires 0 <= j < |ps| => TranslateP(ps[j], cls, dict, mode, showFloat))
  }

  /** A list: its item fields are translated, its bare `p` values are not. */
  function TranslateList(l: PList, cls: string, dict: FormulaDict, mode: Mode, showFloat: real -> string): PList
  {
    l.(items := seq(|l.items|, k requires 0 <= k < |l.items| => TranslatePs(l.items[k], cls, dict, mode, showFloat)))
  }

  function TranslateMo(mo: MO, dict: FormulaDict, mode: Mode, showFloat: real -> string): MO
  {
    var cls := ClassKey(mo.cls);
    mo.(params := TranslatePs(mo.params, cls, dict, mode, showFloat),
        lists := seq(|mo.lists|, j requires 0 <= j < |mo.lists| => TranslateList(mo.lists[j], cls, dict, mode, showFloat)))
  }

  /** The translated copy of a tree */
  function TranslatedTree(doc: CmData, dict: FormulaDict, mode: Mode, showFloat: real -> string): CmData
  {
    doc.(mos := seq(|doc.mos|, i requires 0 <= i < |doc.mos| => TranslateMo(doc.mos[i], dict, mode, showFloat)))
  }

  /** `generate_translated_tree`: the loops over objects, their `p`s, their lists' items and the
      items' `p`s, writing into a copy (the input tree is a value and stays as it was). */
  method TranslateTree(doc: CmData, dict: FormulaDict, mode: Mode, showFloat: real -> string) returns (r: CmData)
    ensures r == TranslatedTree(doc, dict, mode, showFloat)
  {
    var mos: seq<MO> := [];
    var i := 0;
    while i < |doc.mos|
      invariant 0 <= i <= |doc.mos| && |mos| == i
      invariant forall k :: 0 <= k < i ==> mos[k] == TranslateMo(doc.mos[k], dict, mode, showFloat)
    {
      var mo := TranslateObject(doc.mos[i], dict, mode, showFloat);
      mos := mos + [mo];
      i := i + 1;
    }
    r := doc.(mos := mos);
  }

  /** The body of the loop over objects: the object's `p`s, then its lists. */
  method TranslateObject(mo: MO, dict: FormulaDict, mode: Mode, showFloat: real -> string) returns (r: MO)
    ensures r == TranslateMo(mo, dict, mode, showFloat)
  {
    var cls := ClassKey(mo.cls);
    var ps := TranslateParams(mo.params, cls, dict, mode, showFloat);
    var ls: seq<PList> := [];
    var j := 0;
    while j < |mo.lists|
      invariant 0 <= j <= |mo.lists| && |ls| == j
      invariant forall k :: 0 <= k < j ==> ls[k] == TranslateList(mo.lists[k], cls, dict, mode, showFloat)
    {
      var l := TranslateListItems(mo.lists[j], cls, dict, mode, showFloat);
      ls := ls + [l];
      j := j + 1;
    }
    r := mo.(params := ps, lists := ls);
  }

  /** The loop over one list's items. */
  method TranslateListItems(l: PList, cls: string, dict: FormulaDict, mode: Mode, showFloat: real -> string)
    returns (r: PList)
    ensures r == TranslateList(l, cls, dict, mode, showFloat)
  {
    var items: seq<seq<P>> := [];
    var k := 0;
    while k < |l.items|
      invariant 0 <= k <= |l.items| && |items| == k
      invariant forall m :: 0 <= m < k ==> items[m] == TranslatePs(l.items[m], cls, dict, mode, showFloat)
    {
      var fields := TranslateParams(l.items[k], cls, dict, mode, showFloat);
      items := items + [fields];
      k := k + 1;
    }
    r := l.(items := items);
  }

  /** The loop over one run of `p`s */
  method TranslateParams(ps: seq<P>, cls: string, dict: FormulaDict, mode: Mode, showFloat: real -> string)
    returns (r: seq<P>)
    ensures r == TranslatePs(ps, cls, dict, mode, showFloat)
  {
    r := [];
    var j := 0;
    while j < |ps|
      invariant 0 <= j <= |ps| && |r| == j
      invariant forall k :: 0 <= k < j ==> r[k] == TranslateP(ps[k], cls, dict, mode, showFloat)
    {
      r := r + [TranslateP(ps[j], cls, dict, mode, showFloat)];
      j := j + 1;
    }
  }

  /** Translation keeps every object, parameter name, list name and bare list value; it rewrites
      no `p` whose key is not catalogued or whose text is blank. */
  lemma TranslatedTreeShape(doc: CmData, dict: FormulaDict, mode: Mode, showFloat: real -> string, i: nat, j: nat)
    requires i < |doc.mos|
    ensures var r := TranslatedTree(doc, dict, mode, showFloat);
            SameSkeleton(doc, r) && |r.mos[i].params| == |doc.mos[i].params| && |r.mos[i].lists| == |doc.mos[i].lists|
    ensures var r := TranslatedTree(doc, dict, mode, showFloat);
            j < |doc.mos[i].params| ==>
              r.mos[i].params[j].name == doc.mos[i].params[j].name
              && ((EntryOf(dict, ClassKey(doc.mos[i].cls), doc.mos[i].params[j].name).None?
                   || Strip(doc.mos[i].params[j].text) == "") ==> r.mos[i].params[j] == doc.mos[i].params[j])
    ensures var r := TranslatedTree(doc, dict, mode, showFloat);
            j < |doc.mos[i].lists| ==>
              r.mos[i].lists[j].name == doc.mos[i].lists[j].name && r.mos[i].lists[j].bare == doc.mos[i].lists[j].bare
              && |r.mos[i].lists[j].items| == |doc.mos[i].lists[j].items|
  {
  }

  /** A catalog with no entry for the tree's classes leaves the tree as it is. */
  lemma TranslateUncatalogued(doc: CmData, dict: FormulaDict, mode: Mode, showFloat: real -> string)
    requires forall i, n :: 0 <= i < |doc.mos| ==> EntryOf(dict, ClassKey(doc.mos[i].cls), n).None?
    ensures TranslatedTree(doc, dict, mode, showFloat) == doc
  {
    var r := TranslatedTree(doc, dict, mode, showFloat);
    forall i | 0 <= i < |doc.mos| ensures r.mos[i] == doc.mos[i] {
      var mo := doc.mos[i];
      var cls := ClassKey(mo.cls);
      assert TranslatePs(mo.params, cls, dict, mode, showFloat) == mo.params;
      forall j | 0 <= j < |mo.lists| ensures TranslateList(mo.lists[j], cls, dict, mode, showFloat) == mo.lists[j] {
        var l := mo.lists[j];
        forall k | 0 <= k < |l.items| ensures TranslatePs(l.items[k], cls, dict, mode, showFloat) == l.items[k] {
        }
      }
    }
  }

  // ----- warn_missing_required_params -----

  /** The required parameters a class declares that an object does not carry. */
  function MissingRequired(mo: MO, schema: Schema.Dict): (r: set<string>)
    ensures forall k :: k in r ==> forall j :: 0 <= j < |mo.params| ==> mo.params[j].name != k
  {
    var cls := ClassTail(mo.cls);
    if cls !in schema then {}
    else
      set e | e in schema[cls].params && e.1.Scalar? && e.1.required
                && (forall j :: 0 <= j < |mo.params| ==> mo.params[j].name != e.0) :: e.0
  }

  /** `warn_missing_required_params`: the missing keys are computed per object, but the lines that
      would report them are disabled, so no warning is ever returned. */
  function WarnMissingRequired(doc: CmData, schema: Schema.Dict): (r: seq<string>)
    ensures r == []
  {
    var missing := seq(|doc.mos|, i requires 0 <= i < |doc.mos| => MissingRequired(doc.mos[i], schema));
    []
  }

  // ----- generate_cli_script_from_xml(_string) -----

  /** One line of the generated script */
  datatype Cmd =
    | Exit
    | Enter(cls: string, id: string)
    | SetParam(key: string, value: string)
    | SetListField(list: string, idx: nat, key: string, value: string)

  function Render(c: Cmd): string
  {
    match c
    case Exit => "exit"
    case Enter(cls, id) => cls + " " + id
    case SetParam(k, v) => k + " " + v
    case SetListField(l, idx, k, v) => "list " + l + " " + NatToDigits(idx) + " " + k + " " + v
  }

  function RenderAll(cs: seq<Cmd>): (r: seq<string>)
    ensures |r| == |cs|
  {
    seq(|cs|, i requires 0 <= i < |cs| => Render(cs[i]))
  }

  /** A value containing a space is written between double quotes. */
  function Quote(v: string): (r: string)
    ensures ' ' in v ==> r == "\"" + v + "\""
    ensures ' ' !in v ==> r == v
  {
    if ' ' in v then "\"" + v + "\"" else v
  }

  /** The length of the longest common prefix of two paths */
  function Lcp(a: seq<string>, b: seq<string>): (r: nat)
    ensures r <= |a| && r <= |b| && a[..r] == b[..r]
    ensures r < |a| && r < |b| ==> a[r] != b[r]
    decreases |a|
  {
    if a == [] || b == [] || a[0] != b[0] then 0
    else
      var k := Lcp(a[1..], b[1..]);
      assert a[..k + 1] == [a[0]] + a[1..][..k];
      assert b[..k + 1] == [b[0]] + b[1..][..k];
      k + 1
  }

  /** The common prefix is determined by the two properties that `Lcp` promises. */
  lemma LcpUnique(a: seq<string>, b: seq<string>, c: nat)
    requires c <= |a| && c <= |b| && a[..c] == b[..c]
    requires c < |a| && c < |b| ==> a[c] != b[c]
    ensures c == Lcp(a, b)
  {
  }

  function Exits(n: nat): (r: seq<Cmd>)
    ensures |r| == n && forall k :: 0 <= k < n ==> r[k] == Exit
  {
    if n == 0 then [] else Exits(n - 1) + [Exit]
  }

  /** The enter line of one path segment: `cls id` split at the first "-", none for MRBTS or a
      segment without "-". */
  function EnterOf(part: string): (r: seq<Cmd>)
    ensures |r| <= 1
    ensures forall c :: c in r ==> c.Enter? && c.cls != "MRBTS"
  {
    match FindFrom(part, "-", 0)
    case None => []
    case Some(i) => if part[..i] != "MRBTS" then [Enter(part[..i], part[i + 1..])] else []
  }

  function Enters(parts: seq<string>): (r: seq<Cmd>)
    ensures forall c :: c in r ==> c.Enter? && c.cls != "MRBTS"
    decreases |parts|
  {
    if parts == [] then [] else Enters(parts[..|parts| - 1]) + EnterOf(parts[|parts| - 1])
  }

  function ParamCmd(p: P): Cmd
  {
    SetParam(p.name, Quote(Strip(p.text)))
  }

  function ParamCmds(ps: seq<P>): (r: seq<Cmd>)
    ensures |r| == |ps| && forall c :: c in r ==> c.SetParam?
    decreases |ps|
  {
    if ps == [] then [] else ParamCmds(ps[..|ps| - 1]) + [ParamCmd(ps[|ps| - 1])]
  }

  function FieldCmds(list: string, idx: nat, fields: seq<P>): (r: seq<Cmd>)
    ensures forall c :: c in r ==> c.SetListField? && c.list == list && c.idx == idx
    decreases |fields|
  {
    if fields == [] then []
    else
      var p := fields[|fields| - 1];
      FieldCmds(list, idx, fields[..|fields| - 1]) + [SetListField(list, idx, p.name, Quote(Strip(p.text)))]
  }

  /** The item records of one list, numbered from 1 */
  function ItemCmds(list: string, items: seq<seq<P>>): (r: seq<Cmd>)
    ensures forall c :: c in r ==> c.SetListField? && c.list == list && 1 <= c.idx <= |items|
    decreases |items|
  {
    if items == [] then []
    else ItemCmds(list, items[..|items| - 1]) + FieldCmds(list, |items|, items[|items| - 1])
  }

  /** The list lines of an object: item fields only; bare `p` values are not written. */
  function ListCmds(ls: seq<PList>): (r: seq<Cmd>)
    ensures forall c :: c in r ==> c.SetListField? && c.idx >= 1
    decreases |ls|
  {
    if ls == [] then []
    else ListCmds(ls[..|ls| - 1]) + ItemCmds(ls[|ls| - 1].name, ls[|ls| - 1].items)
  }

  /** The lines of one object after the object at `last`: leave to the common ancestor, enter
      the rest of the path, then its parameters and list fields. */
  function MoCmds(mo: MO, last: seq<string>): seq<Cmd>
  {
    var path := Segments(mo.dn);
    var c := Lcp(path, last);
    Exits(|last| - c) + Enters(path[c..]) + ParamCmds(mo.params) + ListCmds(mo.lists)
  }

  /** How many exits close a script whose last object lay at `last` (`range(len(last) - 1)`) */
  function Closing(last: seq<string>): nat
  {
    if |last| > 0 then |last| - 1 else 0
  }

  /** The script of the objects `mos`, in order, after the object at `last`; objects without a
      distName are skipped. */
  function ScriptBody(mos: seq<MO>, last: seq<string>): seq<Cmd>
    decreases |mos|
  {
    if mos == [] then Exits(Closing(last))
    else if mos[0].dn == "" then ScriptBody(mos[1..], last)
    else MoCmds(mos[0], last) + ScriptBody(mos[1..], Segments(mos[0].dn))
  }

  /** The path of the last object with a distName, or `last` if there is none */
  function LastPath(mos: seq<MO>, last: seq<string>): seq<string>
    decreases |mos|
  {
    if mos == [] then last
    else if mos[0].dn == "" then LastPath(mos[1..], last)
    else LastPath(mos[1..], Segments(mos[0].dn))
  }

  // Python's `sorted(..., key=distName)`: a stable insertion sort.

  predicate SortedByDn(s: seq<MO>)
  {
    forall i, j :: 0 <= i < j < |s| ==> !Rules.StrLess(s[j].dn, s[i].dn)
  }

  /** Insert `x` after every element not greater than it. */
  function InsertByDn(x: MO, s: seq<MO>): (r: seq<MO>)
    ensures multiset(r) == multiset(s) + multiset{x}
    decreases |s|
  {
    if s == [] then [x]
    else if Rules.StrLess(x.dn, s[0].dn) then [x] + s
    else
      assert s == [s[0]] + s[1..];
      [s[0]] + InsertByDn(x, s[1..])
  }

  lemma {:induction false} InsertByDnSorted(x: MO, s: seq<MO>)
    requires SortedByDn(s)
    ensures SortedByDn(InsertByDn(x, s))
    decreases |s|
  {
    if s == [] {
    } else if Rules.StrLess(x.dn, s[0].dn) {
      InsertFrontSorted(x, s);
    } else {
      InsertByDnSorted(x, s[1..]);
      assert s == [s[0]] + s[1..];
      InsertBehindSorted(x, s);
    }
  }

  /** An element less than the head of a sorted sequence may go in front of it. */
  lemma InsertFrontSorted(x: MO, s: seq<MO>)
    requires SortedByDn(s) && s != [] && Rules.StrLess(x.dn, s[0].dn)
    ensures SortedByDn([x] + s)
  {
    var r := [x] + s;
    forall j | 0 <= j < |s| ensures !Rules.StrLess(s[j].dn, x.dn) {
      if Rules.StrLess(s[j].dn, x.dn) {
        Rules.StrLessTrans(s[j].dn, x.dn, s[0].dn);
        if j == 0 { Rules.StrLessAsym(s[0].dn, s[0].dn); }
      }
    }
    forall i, j | 0 <= i < j < |r| ensures !Rules.StrLess(r[j].dn, r[i].dn) {
      if i > 0 { assert r[i] == s[i - 1] && r[j] == s[j - 1]; }
      else { assert r[j] == s[j - 1]; }
    }
  }

  /** An element not less than the head of a sorted sequence goes behind it, into the tail. */
  lemma InsertBehindSorted(x: MO, s: seq<MO>)
    requires SortedByDn(s) && s != [] && !Rules.StrLess(x.dn, s[0].dn)
    requires SortedByDn(InsertByDn(x, s[1..]))
    ensures SortedByDn(InsertByDn(x, s))
  {
    var t := InsertByDn(x, s[1..]);
    InsertedNotBelow(x, s);
    var r := [s[0]] + t;
    assert InsertByDn(x, s) == r;
    forall i, j | 0 <= i < j < |r| ensures !Rules.StrLess(r[j].dn, r[i].dn) {
      if i > 0 { assert r[i] == t[i - 1] && r[j] == t[j - 1]; }
      else { assert r[j] == t[j - 1]; }
    }
  }

  /** Inserting into the tail keeps every element at or above the head. */
  lemma InsertedNotBelow(x: MO, s: seq<MO>)
    requires SortedByDn(s) && s != [] && !Rules.StrLess(x.dn, s[0].dn)
    ensures forall j :: 0 <= j < |InsertByDn(x, s[1..])| ==> !Rules.StrLess(InsertByDn(x, s[1..])[j].dn, s[0].dn)
  {
    var t := InsertByDn(x, s[1..]);
    forall j | 0 <= j < |t| ensures !Rules.StrLess(t[j].dn, s[0].dn) {
      assert t[j] in multiset(t);
      if t[j] != x {
        assert t[j] in multiset(s[1..]);
        var k :| 0 <= k < |s[1..]| && s[1..][k] == t[j];
        assert s[k + 1] == t[j];
      }
    }
  }

  function SortByDn(mos: seq<MO>): (r: seq<MO>)
    ensures multiset(r) == multiset(mos) && SortedByDn(r)
    decreases |mos|
  {
    if mos == [] then []
    else
      assert mos == mos[..|mos| - 1] + [mos[|mos| - 1]];
      var t := SortByDn(mos[..|mos| - 1]);
      InsertByDnSorted(mos[|mos| - 1], t);
      InsertByDn(mos[|mos| - 1], t)
  }

  /** The whole script of a tree, in sorted distName order */
  function Script(doc: CmData): seq<Cmd>
  {
    ScriptBody(SortByDn(doc.mos), [])
  }

  /** No line of a script enters the root: MRBTS segments are skipped. */
  lemma {:induction false} ScriptNeverEntersRoot(mos: seq<MO>, last: seq<string>)
    ensures forall c :: c in ScriptBody(mos, last) && c.Enter? ==> c.cls != "MRBTS"
    decreases |mos|
  {
    if mos != [] {
      ScriptNeverEntersRoot(mos[1..], if mos[0].dn == "" then last else Segments(mos[0].dn));
      if mos[0].dn != "" {
        MoCmdsNeverEnterRoot(mos[0], last);
      }
    }
  }

  lemma MoCmdsNeverEnterRoot(mo: MO, last: seq<string>)
    ensures forall c :: c in MoCmds(mo, last) && c.Enter? ==> c.cls != "MRBTS"
  {
    var path := Segments(mo.dn);
    var k := Lcp(path, last);
    var a, b, p, l := Exits(|last| - k), Enters(path[k..]), ParamCmds(mo.params), ListCmds(mo.lists);
    assert MoCmds(mo, last) == a + b + p + l;
    NoRootEnterConcat(a, b, p, l);
  }

  predicate NoRootEnter(cs: seq<Cmd>)
  {
    forall c :: c in cs && c.Enter? ==> c.cls != "MRBTS"
  }

  lemma NoRootEnterConcat(a: seq<Cmd>, b: seq<Cmd>, p: seq<Cmd>, l: seq<Cmd>)
    requires NoRootEnter(a) && NoRootEnter(b) && NoRootEnter(p) && NoRootEnter(l)
    ensures NoRootEnter(a + b + p + l)
  {
    forall c | c in a + b + p + l && c.Enter? ensures c.cls != "MRBTS" {
      assert c in a || c in b || c in p || c in l;
    }
  }

  /** A script ends by leaving the last object up to the root: `len(last_path) - 1` exits. */
  lemma {:induction false} ScriptClosesLastPath(mos: seq<MO>, last: seq<string>)
    ensures var b := ScriptBody(mos, last);
            var n := Closing(LastPath(mos, last));
            n <= |b| && b[|b| - n..] == Exits(n)
    decreases |mos|
  {
    if mos != [] {
      var next := if mos[0].dn == "" then last else Segments(mos[0].dn);
      ScriptClosesLastPath(mos[1..], next);
      if mos[0].dn != "" {
        var b := ScriptBody(mos, last);
        var t := ScriptBody(mos[1..], next);
        var n := Closing(LastPath(mos, last));
        assert b == MoCmds(mos[0], last) + t;
        SuffixOfAppend(MoCmds(mos[0], last), t, n);
      }
    }
  }

  lemma SuffixOfAppend(u: seq<Cmd>, t: seq<Cmd>, n: nat)
    requires n <= |t|
    ensures (u + t)[|u + t| - n..] == t[|t| - n..]
  {
  }

  /** Between two objects the script leaves exactly the segments that are not shared, then
      enters the new object's own segments. */
  lemma ScriptStepsBetween(mo: MO, rest: seq<MO>, last: seq<string>)
    requires mo.dn != ""
    ensures var b := ScriptBody([mo] + rest, last);
            var path := Segments(mo.dn);
            var n := |last| - Lcp(path, last);
            var e := Enters(path[Lcp(path, last)..]);
            n + |e| <= |b| && b[..n] == Exits(n) && b[n..n + |e|] == e
  {
    var path := Segments(mo.dn);
    var c := Lcp(path, last);
    ScriptBodyCons(mo, rest, last);
    MoCmdsParts(mo, last, c);
    var x, e, p, l := Exits(|last| - c), Enters(path[c..]), ParamCmds(mo.params), ListCmds(mo.lists);
    var w := ScriptBody(rest, path);
    Regroup(x, e, p, l, w);
    FrontParts(x, e, p + l + w);
  }

  /** An object with a distName contributes its own lines, then the rest follows from its path. */
  lemma ScriptBodyCons(mo: MO, rest: seq<MO>, last: seq<string>)
    requires mo.dn != ""
    ensures ScriptBody([mo] + rest, last) == MoCmds(mo, last) + ScriptBody(rest, Segments(mo.dn))
  {
    assert ([mo] + rest)[1..] == rest;
  }

  /** An object's lines are its exits, enters, parameters and list fields. */
  lemma MoCmdsParts(mo: MO, last: seq<string>, c: nat)
    requires c == Lcp(Segments(mo.dn), last)
    ensures MoCmds(mo, last)
            == Exits(|last| - c) + Enters(Segments(mo.dn)[c..]) + ParamCmds(mo.params) + ListCmds(mo.lists)
  {
  }

  lemma Regroup(a: seq<Cmd>, b: seq<Cmd>, p: seq<Cmd>, l: seq<Cmd>, w: seq<Cmd>)
    ensures a + b + p + l + w == a + b + (p + l + w)
  {
  }

  /** The first two parts of a three-part concatenation */
  lemma FrontParts(x: seq<Cmd>, e: seq<Cmd>, w: seq<Cmd>)
    ensures (x + e + w)[..|x|] == x && (x + e + w)[|x|..|x| + |e|] == e
  {
  }

  // The loops of the script generator.

  /** `generate_cli_script_from_xml_string`'s loop: the lines of the script, in order. */
  method ScriptCommands(doc: CmData) returns (commands: seq<string>)
    ensures commands == RenderAll(Script(doc))
  {
    var mos := SortByDn(doc.mos);
    var cmds: seq<Cmd> := [];
    var last: seq<string> := [];
    var t := 0;
    while t < |mos|
      invariant 0 <= t <= |mos|
      invariant cmds + ScriptBody(mos[t..], last) == ScriptBody(mos, [])
    {
      assert mos[t..][1..] == mos[t + 1..];
      var mo := mos[t];
      if mo.dn != "" {
        var step := MoCommands(mo, last);
        assert ScriptBody(mos[t..], last) == step + ScriptBody(mos[t + 1..], Segments(mo.dn));
        cmds := cmds + step;
        last := Segments(mo.dn);
      }
      t := t + 1;
    }
    var closing := EmitExits(Closing(last));
    cmds := cmds + closing;
    commands := RenderAll(cmds);
  }

  /** One object's lines: the common-prefix count, the exits, the enters, the parameters and the
      list item fields. */
  method MoCommands(mo: MO, last: seq<string>) returns (out: seq<Cmd>)
    ensures out == MoCmds(mo, last)
  {
    var path := Segments(mo.dn);
    var common := CommonPrefix(path, last);
    var exits := EmitExits(|last| - common);
    var enters := EmitEnters(path[common..]);
    var ps := EmitParams(mo.params);
    var ls := EmitLists(mo.lists);
    out := exits + enters + ps + ls;
  }

  /** The number of leading segments two paths share */
  method CommonPrefix(path: seq<string>, last: seq<string>) returns (common: nat)
    ensures common == Lcp(path, last)
  {
    common := 0;
    while common < |path| && common < |last| && path[common] == last[common]
      invariant common <= |path| && common <= |last| && path[..common] == last[..common]
    {
      assert path[..common + 1] == path[..common] + [path[common]];
      assert last[..common + 1] == last[..common] + [last[common]];
      common := common + 1;
    }
    LcpUnique(path, last, common);
  }

  method EmitExits(n: nat) returns (out: seq<Cmd>)
    ensures out == Exits(n)
  {
    out := [];
    var k := 0;
    while k < n
      invariant 0 <= k <= n && out == Exits(k)
    {
      out := out + [Exit];
      k := k + 1;
    }
  }

  method EmitEnters(parts: seq<string>) returns (out: seq<Cmd>)
    ensures out == Enters(parts)
  {
    out := [];
    var k := 0;
    while k < |parts|
      invariant 0 <= k <= |parts| && out == Enters(parts[..k])
    {
      assert parts[..k + 1][..k] == parts[..k];
      var part := parts[k];
      match FindFrom(part, "-", 0) {
        case None =>
        case Some(i) =>
          if part[..i] != "MRBTS" {
            out := out + [Enter(part[..i], part[i + 1..])];
          }
      }
      k := k + 1;
    }
    assert parts[..k] == parts;
  }

  method EmitParams(ps: seq<P>) returns (out: seq<Cmd>)
    ensures out == ParamCmds(ps)
  {
    out := [];
    var k := 0;
    while k < |ps|
      invariant 0 <= k <= |ps| && out == ParamCmds(ps[..k])
    {
      assert ps[..k + 1][..k] == ps[..k];
      out := out + [SetParam(ps[k].name, Quote(Strip(ps[k].text)))];
      k := k + 1;
    }
    assert ps[..k] == ps;
  }

  method EmitLists(ls: seq<PList>) returns (out: seq<Cmd>)
    ensures out == ListCmds(ls)
  {
    out := [];
    var k := 0;
    while k < |ls|
      invariant 0 <= k <= |ls| && out == ListCmds(ls[..k])
    {
      assert ls[..k + 1][..k] == ls[..k];
      var part := EmitItems(ls[k].name, ls[k].items);
      out := out + part;
      k := k + 1;
    }
    assert ls[..k] == ls;
  }

  /** The item records of one list, numbered from 1 */
  method EmitItems(list: string, items: seq<seq<P>>) returns (part: seq<Cmd>)
    ensures part == ItemCmds(list, items)
  {
    var idx := 1;
    part := [];
    while idx <= |items|
      invariant 1 <= idx <= |items| + 1 && part == ItemCmds(list, items[..idx - 1])
    {
      ItemCmdsSnoc(list, items, idx - 1);
      var fields := EmitFields(list, idx, items[idx - 1]);
      part := part + fields;
      idx := idx + 1;
    }
    assert items[..idx - 1] == items;
  }

  lemma ItemCmdsSnoc(list: string, items: seq<seq<P>>, k: nat)
    requires k < |items|
    ensures ItemCmds(list, items[..k + 1]) == ItemCmds(list, items[..k]) + FieldCmds(list, k + 1, items[k])
  {
    assert items[..k + 1][..k] == items[..k];
  }

  lemma FieldCmdsSnoc(list: string, idx: nat, fields: seq<P>, k: nat)
    requires k < |fields|
    ensures FieldCmds(list, idx, fields[..k + 1])
            == FieldCmds(list, idx, fields[..k]) + [SetListField(list, idx, fields[k].name, Quote(Strip(fields[k].text)))]
  {
    assert fields[..k + 1][..k] == fields[..k];
  }

  method EmitFields(list: string, idx: nat, fields: seq<P>) returns (out: seq<Cmd>)
    ensures out == FieldCmds(list, idx, fields)
  {
    out := [];
    var k := 0;
    while k < |fields|
      invariant 0 <= k <= |fields| && out == FieldCmds(list, idx, fields[..k])
    {
      FieldCmdsSnoc(list, idx, fields, k);
      out := out + [SetListField(list, idx, fields[k].name, Quote(Strip(fields[k].text)))];
      k := k + 1;
    }
    assert fields[..k] == fields;
  }

  /** `generate_cli_script_from_xml_string`: the lines joined by newlines. */
  method ScriptText(doc: CmData) returns (text: string)
    ensures text == Join(RenderAll(Script(doc)), "\n")
  {
    var commands := ScriptCommands(doc);
    text := Join(commands, "\n");
  }

  /** The file `generate_cli_script_from_xml` writes: every line followed by a newline. */
  function FileText(lines: seq<string>): string
    decreases |lines|
  {
    if lines == [] then [] else lines[0] + "\n" + FileText(lines[1..])
  }

  method ScriptFile(doc: CmData) returns (content: string)
    ensures content == FileText(RenderAll(Script(doc)))
  {
    var commands := ScriptCommands(doc);
    content := WriteLines(commands);
  }

  /** The write loop: each command followed by a newline. */
  method WriteLines(commands: seq<string>) returns (content: string)
    ensures content == FileText(commands)
  {
    content := "";
    var k := 0;
    while k < |commands|
      invariant 0 <= k <= |commands|
      invariant content + FileText(commands[k..]) == FileText(commands)
    {
      FileTextStep(content, commands, k);
      content := content + commands[k] + "\n";
      k := k + 1;
    }
  }

  lemma FileTextStep(content: string, commands: seq<string>, k: nat)
    requires k < |commands|
    ensures content + FileText(commands[k..]) == (content + commands[k] + "\n") + FileText(commands[k + 1..])
  {
    assert commands[k..][1..] == commands[k + 1..];
    assert FileText(commands[k..]) == commands[k] + "\n" + FileText(commands[k + 1..]);
  }
}
