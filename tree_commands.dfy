// The tree commands of the configuration CLI (cli/common/mixins/tree_commands.py) as they run:
// methods on the session that walk the tree with loops and write the result back into its
// fields. Each is proved to leave the session in the state the matching function of TreeEdit
// or TreeNav describes, so every property proved there holds of them.

module TreeCommands {
  import opened Wrappers
  import opened Text
  import opened Tree
  import Schema
  import Rules
  import opened Session
  import opened TreeEdit
  import opened TreeNav

  // ----- searches over the tree -----

  /** The setters' `for mo in findall(".//managedObject"): if <class and path match>: ... break` */
  method FindCurrent(mos: seq<MO>, cls: string, tail: string) returns (r: Option<nat>)
    ensures r == FirstCurrent(mos, cls, tail)
  {
    var i := 0;
    while i < |mos|
      invariant i <= |mos|
      invariant forall j :: 0 <= j < i ==> !IsCurrent(mos[j], cls, tail)
    {
      if IsCurrent(mos[i], cls, tail) {
        return Some(i);
      }
      i := i + 1;
    }
    return None;
  }

  /** The loop that looks for the object whose distName is exactly `dn` */
  method FindDn(mos: seq<MO>, dn: string) returns (r: Option<nat>)
    ensures r == FirstWithDn(mos, dn)
  {
    var i := 0;
    while i < |mos|
      invariant i <= |mos|
      invariant forall j :: 0 <= j < i ==> mos[j].dn != dn
    {
      if mos[i].dn == dn {
        return Some(i);
      }
      i := i + 1;
    }
    return None;
  }

  /** `for lst in mo.findall("list"): if lst.attrib.get("name") == name: ... break` */
  method FindListIn(ls: seq<PList>, name: string) returns (r: Option<nat>)
    ensures r == FindList(ls, name)
  {
    var i := 0;
    while i < |ls|
      invariant i <= |ls|
      invariant forall j :: 0 <= j < i ==> ls[j].name != name
    {
      if ls[i].name == name {
        return Some(i);
      }
      i := i + 1;
    }
    return None;
  }

  /** The upsert of one `p`: overwrite the text of the first one named `name`, or append one. */
  method UpsertP(ps: seq<P>, name: string, text: string) returns (r: seq<P>)
    ensures r == SetP(ps, name, text)
  {
    var j := 0;
    while j < |ps|
      invariant j <= |ps|
      invariant forall k :: 0 <= k < j ==> ps[k].name != name
    {
      if ps[j].name == name {
        SetPAt(ps, name, text, j);
        return ps[j := P(name, text)];
      }
      j := j + 1;
    }
    return ps + [P(name, text)];
  }

  /** The removal of the first `p` named `name`, if there is one */
  method DropP(ps: seq<P>, name: string) returns (r: seq<P>)
    ensures r == RemoveP(ps, name)
  {
    var j := 0;
    while j < |ps|
      invariant j <= |ps|
      invariant forall k :: 0 <= k < j ==> ps[k].name != name
    {
      if ps[j].name == name {
        RemovePAt(ps, name, j);
        return ps[..j] + ps[j + 1..];
      }
      j := j + 1;
    }
    return ps;
  }

  // ----- _set_param -----

  /** `_set_param(key, value)` on the session */
  method SetParam(s: CliSession, key: string, value: string) returns (out: Outcome)
    modifies s`xml, s`userInputs, s`errors
    ensures Step(s.NavState(), out) == SetParamSpec(old(s.NavState()), old(s.CtxState()), key, value)
  {
    if s.schema.None? {
      return Raised("TypeError");
    }
    var sch := s.schema.value;
    if s.moClass.None? || s.moClass.value !in sch {
      s.PerrorM(MsgUnknownMo);
      return Done;
    }
    var cls := s.moClass.value;
    if !Schema.Declares(sch[cls].params, key) {
      s.PerrorM(MsgParamNotAllowed);
      return Done;
    }
    var i := FindCurrent(s.xml.mos, cls, s.matchTail);
    if i.None? {
      s.PerrorM(MsgNoCurrentMo);
      return Done;
    }
    var mo := s.xml.mos[i.value];
    var ps := UpsertP(mo.params, key, value);
    s.xml := s.xml.(mos := s.xml.mos[i.value := mo.(params := ps)]);
    s.userInputs := s.userInputs + [SetInput(s.matchTail, key, value)];
    return Done;
  }

  // ----- _set_list_param -----

  /** `for k in param_dict.keys(): if k != "val" and k not in children: <reject>` */
  method HasBadField(fs: seq<(string, string)>, decl: seq<(string, Schema.ParamEntry)>) returns (bad: bool)
    ensures bad == BadField(fs, decl)
  {
    var t := 0;
    while t < |fs|
      invariant t <= |fs|
      invariant forall q :: 0 <= q < t ==> fs[q].0 == "val" || Schema.Declares(decl, fs[q].0)
    {
      if fs[t].0 != "val" && !Schema.Declares(decl, fs[t].0) {
        return true;
      }
      t := t + 1;
    }
    return false;
  }

  /** `while len(nodes) <= idx: SubElement(...)`: append `fill` until index `idx` exists. */
  method PadTo<T>(s: seq<T>, idx: int, fill: T) returns (r: seq<T>)
    ensures r == Pad(s, idx + 1, fill)
  {
    r := s;
    while |r| <= idx
      invariant |s| <= |r| && r[..|s|] == s
      invariant forall q :: |s| <= q < |r| ==> r[q] == fill
      invariant |r| > |s| ==> |r| <= idx + 1
      decreases idx - |r|
    {
      r := r + [fill];
    }
    assert r == Pad(s, idx + 1, fill);
  }

  /** `for k, v in param_dict.items(): <upsert p k in item>; user_inputs.append(...)` */
  method UpsertFields(s: CliSession, item: seq<P>, name: string, index: string, fs: seq<(string, string)>)
    returns (r: seq<P>)
    modifies s`userInputs
    ensures r == SetFields(item, fs)
    ensures s.userInputs == old(s.userInputs) + FieldInputs(s.matchTail, name, index, fs)
  {
    r := item;
    var t := 0;
    while t < |fs|
      invariant t <= |fs|
      invariant SetFields(r, fs[t..]) == SetFields(item, fs)
      invariant s.userInputs == old(s.userInputs) + FieldInputs(s.matchTail, name, index, fs[..t])
    {
      SetFieldsStep(r, fs, t);
      FieldInputsSnoc(s.matchTail, name, index, fs, t);
      r := UpsertP(r, fs[t].0, fs[t].1);
      s.userInputs := s.userInputs + [SetListInput(s.matchTail, name, index, fs[t].0, fs[t].1)];
      t := t + 1;
    }
    assert fs[..t] == fs;
  }

  /** Replace object `i`'s lists by `ls`. */
  method PutLists(s: CliSession, i: nat, ls: seq<PList>)
    requires i < |s.xml.mos|
    modifies s`xml
    ensures s.xml == old(s.xml).(mos := old(s.xml).mos[i := old(s.xml).mos[i].(lists := ls)])
  {
    s.xml := s.xml.(mos := s.xml.mos[i := s.xml.mos[i].(lists := ls)]);
  }

  /** `SubElement(mo, "list", name=...)` on object `i` when it has no list named `name`; `ls[j]` is the list. */
  method CreateList(s: CliSession, i: nat, name: string) returns (ls: seq<PList>, j: nat)
    requires i < |s.xml.mos|
    modifies s`xml
    ensures (ls, j) == EnsureList(old(s.xml.mos[i].lists), name)
    ensures s.xml == old(s.xml).(mos := old(s.xml).mos[i := old(s.xml).mos[i].(lists := ls)])
    ensures s.NavState() == UpdateMo(old(s.NavState()), i, old(s.xml.mos[i]).(lists := ls))
  {
    var found := FindListIn(s.xml.mos[i].lists, name);
    if found.None? {
      ls, j := s.xml.mos[i].lists + [PList(name, [], [])], |s.xml.mos[i].lists|;
      s.xml := s.xml.(mos := s.xml.mos[i := s.xml.mos[i].(lists := ls)]);
    } else {
      ls, j := s.xml.mos[i].lists, found.value;
      assert s.xml.mos[i].(lists := ls) == s.xml.mos[i];
    }
  }

  /** The `val` form on one list: pad the bare `p`s, then set the one at `idx`. */
  method WriteValIn(l: PList, idx: int, val: string) returns (r: (PList, bool))
    ensures r == WriteVal(l, idx, val)
  {
    var bare := PadTo(l.bare, idx, "");
    var k := PyIndex(|bare|, idx);
    if k.None? {
      return (l.(bare := bare), false);
    }
    return (l.(bare := bare[k.value := val]), true);
  }

  /** The record form on one list: pad the items, then upsert the fields of the one at `idx`,
      logging one input per field. */
  method WriteRecordIn(s: CliSession, l: PList, idx: int, name: string, index: string, fs: seq<(string, string)>)
    returns (r: (PList, bool))
    modifies s`userInputs
    ensures r == WriteRecord(l, idx, fs)
    ensures s.userInputs == old(s.userInputs) + (if r.1 then FieldInputs(s.matchTail, name, index, fs) else [])
  {
    var items := PadTo(l.items, idx, []);
    var k := PyIndex(|items|, idx);
    if k.None? {
      return (l.(items := items), false);
    }
    var item := UpsertFields(s, items[k.value], name, index, fs);
    return (l.(items := items[k.value := item]), true);
  }

  /** The write of `_set_list_param` on object `i`, once the list is `ls[j]` and the index parsed */
  method WriteListIndexed(s: CliSession, i: nat, ls: seq<PList>, j: nat, v: int,
                          name: string, index: string, fs: seq<(string, string)>)
    returns (out: Outcome)
    requires i < |s.xml.mos| && j < |ls|
    modifies s`xml, s`userInputs
    ensures Step(s.NavState(), out) == WriteIndexed(old(s.NavState()), i, ls, j, v, name, index, fs)
  {
    ghost var n := s.NavState();
    var val := FieldLookup(fs, "val");
    var res;
    if val.Some? {
      res := WriteValIn(ls[j], v - 1, val.value);
    } else {
      res := WriteRecordIn(s, ls[j], v - 1, name, index, fs);
    }
    assert res == WriteAt(ls[j], v - 1, fs);
    ghost var n1 := UpdateMo(n, i, n.doc.mos[i].(lists := ls[j := res.0]));
    PutLists(s, i, ls[j := res.0]);
    if !res.1 {
      assert s.NavState() == n1;
      return Raised("IndexError");
    }
    if val.Some? {
      s.userInputs := s.userInputs + [SetListInput(s.matchTail, name, index, "val", val.value)];
    }
    assert s.NavState() == n1.(inputs := n.inputs + ListInputs(n.matchTail, name, index, fs));
    return Done;
  }

  /** The write of `_set_list_param` on object `i`: the list is created before the index is read. */
  method WriteListAt(s: CliSession, i: nat, name: string, index: string, fs: seq<(string, string)>)
    returns (out: Outcome)
    requires i < |s.xml.mos|
    modifies s`xml, s`userInputs
    ensures Step(s.NavState(), out) == WriteList(old(s.NavState()), i, name, index, fs)
  {
    ghost var n := s.NavState();
    var ls, j := CreateList(s, i, name);
    var v := ParseInt(index);
    if v.None? {
      return Raised("ValueError");
    }
    ghost var n0 := s.NavState();
    out := WriteListIndexed(s, i, ls, j, v.value, name, index, fs);
    WriteIndexedOver(n, n0, i, ls, j, v.value, name, index, fs);
  }

  /** `_set_list_param(name, index, fields)` on the session */
  method SetListParam(s: CliSession, name: string, index: string, fs: seq<(string, string)>) returns (out: Outcome)
    modifies s`xml, s`userInputs, s`errors
    ensures Step(s.NavState(), out) == SetListSpec(old(s.NavState()), old(s.CtxState()), name, index, fs)
  {
    if s.schema.None? {
      return Raised("TypeError");
    }
    var sch := s.schema.value;
    if s.moClass.None? || s.moClass.value !in sch {
      s.PerrorM(MsgUnknownMo);
      return Done;
    }
    var cls := s.moClass.value;
    var e := Schema.Lookup(sch[cls].params, name);
    if e.None? {
      s.PerrorM(MsgListNotAllowed);
      return Done;
    }
    if !e.value.ListParam? {
      s.PerrorM(MsgNotAList);
      return Done;
    }
    var bad := HasBadField(fs, e.value.fields);
    if bad {
      s.PerrorM(MsgFieldNotAllowed);
      return Done;
    }
    var i := FindCurrent(s.xml.mos, cls, s.matchTail);
    if i.None? {
      s.PerrorM(MsgNoCurrentMo);
      return Done;
    }
    out := WriteListAt(s, i.value, name, index, fs);
  }

  // ----- do_no_pa -----

  /** `do_no_pa(arg)` on the session */
  method NoPa(s: CliSession, tokens: seq<string>) returns (out: Outcome)
    modifies s`xml, s`errors
    ensures Step(s.NavState(), out) == NoPaSpec(old(s.NavState()), tokens)
  {
    if |tokens| != 1 {
      s.PerrorM(MsgNoPaUsage);
      return Done;
    }
    if !Truthy(s.moClass) {
      s.PerrorM(MsgNoMo);
      return Done;
    }
    var i := FindDn(s.xml.mos, s.matchTail);
    if i.None? || (s.xml.mos[i.value].params == [] && s.xml.mos[i.value].lists == []) {
      s.PerrorM(MsgNoXmlMo);
      return Done;
    }
    var mo := s.xml.mos[i.value];
    var ps := DropP(mo.params, tokens[0]);
    s.xml := s.xml.(mos := s.xml.mos[i.value := mo.(params := ps)]);
    return Done;
  }

  // ----- do_no_mo, do_no_mo_scf -----

  /** The removal pass of `do_no_mo`: the objects that stay, and how many were removed */
  method DropTargets(mos: seq<MO>, key: string) returns (kept: seq<MO>, removed: nat)
    ensures kept == WithoutTargets(mos, key)
    ensures removed == 0 <==> !HasNoMoTarget(mos, key)
  {
    kept, removed := [], 0;
    var t := 0;
    while t < |mos|
      invariant t <= |mos|
      invariant kept + WithoutTargets(mos[t..], key) == WithoutTargets(mos, key)
      invariant |kept| + removed == t
    {
      WithoutTargetsStep(mos, t, key);
      if NoMoTarget(mos[t].dn, key) {
        removed := removed + 1;
      } else {
        kept := kept + [mos[t]];
      }
      t := t + 1;
    }
    assert mos[t..] == [];
  }

  lemma WithoutTargetsStep(mos: seq<MO>, t: nat, key: string)
    requires t < |mos|
    ensures WithoutTargets(mos[t..], key)
            == (if NoMoTarget(mos[t].dn, key) then [] else [mos[t]]) + WithoutTargets(mos[t + 1..], key)
  {
    assert mos[t..][1..] == mos[t + 1..];
  }

  /** `do_no_mo(arg)` on the session, with the current position read from the current path */
  method NoMo(s: CliSession, tokens: seq<string>) returns (out: Outcome)
    modifies s`xml, s`errors
    ensures Step(s.NavState(), out) == NoMoSpec(old(s.NavState()), tokens)
  {
    if |tokens| != 2 {
      s.PerrorM(MsgNoMoUsage);
      return Done;
    }
    if !Truthy(s.btsId) {
      s.PerrorM(MsgNoBts);
      return Done;
    }
    var key := tokens[0] + "-" + tokens[1];
    if Contains(s.matchTail, key) {
      s.PerrorM(MsgInsideTarget);
      return Done;
    }
    var kept, removed := DropTargets(s.xml.mos, key);
    if removed == 0 {
      s.PerrorM(MsgNoTarget);
      return Done;
    }
    s.xml := s.xml.(mos := kept);
    return Done;
  }

  /** The pass of `do_no_mo_scf`: the objects that stay, and a delete record per removed one */
  method SplitScf(c: Ctx, cls: string, mos: seq<MO>, kw: string) returns (kept: seq<MO>, stones: seq<MO>)
    ensures kept == Untouched(mos, kw) && stones == Tombstones(c, cls, mos, kw)
  {
    kept, stones := [], [];
    var t := 0;
    while t < |mos|
      invariant t <= |mos|
      invariant kept + Untouched(mos[t..], kw) == Untouched(mos, kw)
      invariant stones + Tombstones(c, cls, mos[t..], kw) == Tombstones(c, cls, mos, kw)
    {
      var hit := Contains(mos[t].dn, kw);
      var x, y := if hit then [] else [mos[t]], if hit then [Tombstone(c, cls, mos[t].dn)] else [];
      ScfStep(c, cls, mos, t, kw, kept, stones, x, y);
      kept, stones := kept + x, stones + y;
      t := t + 1;
    }
    assert mos[t..] == [];
  }

  /** One object of the pass: it stays, or it leaves a delete record. */
  lemma ScfStep(c: Ctx, cls: string, mos: seq<MO>, t: nat, kw: string, kept: seq<MO>, stones: seq<MO>, x: seq<MO>, y: seq<MO>)
    requires t < |mos|
    requires kept + Untouched(mos[t..], kw) == Untouched(mos, kw)
    requires stones + Tombstones(c, cls, mos[t..], kw) == Tombstones(c, cls, mos, kw)
    requires x == if Contains(mos[t].dn, kw) then [] else [mos[t]]
    requires y == if Contains(mos[t].dn, kw) then [Tombstone(c, cls, mos[t].dn)] else []
    ensures (kept + x) + Untouched(mos[t + 1..], kw) == Untouched(mos, kw)
    ensures (stones + y) + Tombstones(c, cls, mos[t + 1..], kw) == Tombstones(c, cls, mos, kw)
  {
    assert mos[t..][1..] == mos[t + 1..];
    assert Untouched(mos[t..], kw) == x + Untouched(mos[t + 1..], kw);
    assert Tombstones(c, cls, mos[t..], kw) == y + Tombstones(c, cls, mos[t + 1..], kw);
    assert (kept + x) + Untouched(mos[t + 1..], kw) == kept + (x + Untouched(mos[t + 1..], kw));
    assert (stones + y) + Tombstones(c, cls, mos[t + 1..], kw) == stones + (y + Tombstones(c, cls, mos[t + 1..], kw));
  }

  /** `do_no_mo_scf(arg)` on the session */
  method NoMoScf(s: CliSession, tokens: seq<string>) returns (out: Outcome)
    modifies s`xml, s`errors
    ensures Step(s.NavState(), out) == NoMoScfSpec(old(s.NavState()), old(s.CtxState()), tokens)
  {
    if |tokens| != 2 {
      s.PerrorM(MsgNoMoUsage);
      return Done;
    }
    if !Truthy(s.btsId) {
      s.PerrorM(MsgNoBts);
      return Done;
    }
    var kw := "/" + tokens[0] + "-" + tokens[1];
    var kept, stones := SplitScf(s.CtxState(), tokens[0], s.xml.mos, kw);
    if stones == [] {
      s.PerrorM(MsgNoTarget);
      return Done;
    }
    s.xml := s.xml.(mos := kept + stones);
    return Done;
  }

  // ----- do_add_auto_pa -----

  /** `for key, info in params.items(): ... SubElement(target_mo, "p", name=key).text = value` */
  method FillParams(ps: seq<P>, decl: seq<(string, Schema.ParamEntry)>, addAll: bool) returns (r: seq<P>)
    ensures r == AutoParams(ps, decl, addAll)
  {
    r := ps;
    var t := 0;
    while t < |decl|
      invariant t <= |decl|
      invariant AutoParams(r, decl[t..], addAll) == AutoParams(ps, decl, addAll)
    {
      assert decl[t..][1..] == decl[t + 1..];
      var key := decl[t].0;
      if AutoWanted(decl[t].1, addAll) && LookupP(r, key).None? {
        r := r + [P(key, AutoValue(key, decl[t].1))];
      }
      t := t + 1;
    }
    assert decl[t..] == [];
  }

  /** `do_add_auto_pa(arg)` on the session, with a missing object reported */
  method AddAutoPa(s: CliSession, args: seq<string>) returns (out: Outcome)
    modifies s`xml, s`errors
    ensures Step(s.NavState(), out) == AddAutoPaSpec(old(s.NavState()), old(s.CtxState()), args)
  {
    if !Truthy(s.moClass) {
      s.PerrorM(MsgNoMo);
      return Done;
    }
    if s.schema.None? {
      return Raised("TypeError");
    }
    var cls := s.moClass.value;
    if cls !in s.schema.value {
      s.PerrorM(MsgNotCatalogued);
      return Done;
    }
    var decl := s.schema.value[cls].params;
    if decl == [] {
      return Done;
    }
    var i := FindDn(s.xml.mos, s.matchTail);
    if i.None? {
      s.PerrorM(MsgNoXmlMo);
      return Done;
    }
    var mo := s.xml.mos[i.value];
    var ps := FillParams(mo.params, decl, "-a" in args);
    s.xml := s.xml.(mos := s.xml.mos[i.value := mo.(params := ps)]);
    return Done;
  }

  // ----- do_exit, do_exit_all -----

  /** `do_exit(arg)` on the session; `confirm` is the answer read at the last level. */
  method Exit(s: CliSession, confirm: string) returns (o: ExitOutcome)
    modifies s`promptStack, s`matchTail, s`moClass
    ensures (s.NavState(), o) == ExitSpec(old(s.NavState()), confirm)
  {
    if s.matchTail == "" || IsBlank(s.matchTail) || s.promptStack == [] {
      return Quit;
    }
    if |s.promptStack| == 1 {
      return if Lower(Strip(confirm)) == "yes" then Quit else Stayed;
    }
    s.promptStack := s.promptStack[..|s.promptStack| - 1];
    var segs := Segments(s.matchTail);
    s.matchTail := Join(segs[..|segs| - 1], "/");
    s.moClass := Some(FrameClass(s.promptStack[|s.promptStack| - 1]));
    return Popped;
  }

  /** `do_exit_all(arg)`: exit while more than one frame is left. The Python loop never ends
      once an exit stops popping; `hangs` reports that case and the method stops there. */
  method ExitAll(s: CliSession) returns (hangs: bool)
    modifies s`promptStack, s`matchTail, s`moClass
    ensures hangs <==> ExitAllSpec(old(s.NavState())).None?
    ensures !hangs ==> s.NavState() == ExitAllSpec(old(s.NavState())).value
  {
    while |s.promptStack| > 1
      invariant ExitAllSpec(s.NavState()) == ExitAllSpec(old(s.NavState()))
      decreases |s.promptStack|
    {
      var o := Exit(s, "");
      if o != Popped {
        return true;
      }
    }
    return false;
  }

  // ----- do_chg_mo_id -----

  /** The corrected rename pass: the subtree of `tail` moves below `newTail`. */
  method RebaseAll(mos: seq<MO>, tail: string, newTail: string) returns (r: seq<MO>)
    ensures r == Rebase(mos, tail, newTail)
  {
    r := mos;
    var t := 0;
    while t < |r|
      invariant |r| == |mos| && t <= |r|
      invariant forall j :: 0 <= j < t ==>
                  r[j] == if InSubtree(mos[j].dn, tail) then mos[j].(dn := newTail + mos[j].dn[|tail|..]) else mos[j]
      invariant forall j :: t <= j < |r| ==> r[j] == mos[j]
    {
      if InSubtree(r[t].dn, tail) {
        r := r[t := r[t].(dn := newTail + r[t].dn[|tail|..])];
      }
      t := t + 1;
    }
  }

  /** `do_chg_mo_id(arg)` on the session, renaming exactly the current subtree, then the exit */
  method ChgMoId(s: CliSession, tokens: seq<string>, confirm: string)
    modifies s`xml, s`errors, s`promptStack, s`matchTail, s`moClass
    ensures s.NavState() == ChgMoIdSpec(old(s.NavState()), tokens, confirm)
  {
    if |tokens| != 1 {
      s.PerrorM(MsgChgUsage);
      return;
    }
    if !IsDigits(tokens[0]) {
      s.PerrorM(MsgIdDigits);
      return;
    }
    if s.matchTail == "" || !Truthy(s.moClass) {
      s.PerrorM(MsgNoPosition);
      return;
    }
    var prev := CurrentId(s.matchTail, s.moClass.value);
    if prev.None? {
      s.PerrorM(MsgNoOldId);
      return;
    }
    if prev.value == tokens[0] {
      return;
    }
    var newTail := RenamedTail(s.matchTail, prev.value, tokens[0]);
    var mos := RebaseAll(s.xml.mos, s.matchTail, newTail);
    s.xml := s.xml.(mos := mos);
    s.matchTail := newTail;
    var _ := Exit(s, confirm);
  }

  // ----- list helpers -----

  /** `for p in lst.findall("./p"): if (p.text or "").strip() == str(value): return True` */
  method AnyStrippedIn(bare: seq<string>, value: string) returns (r: bool)
    ensures r == AnyStripped(bare, value)
  {
    var k := 0;
    while k < |bare|
      invariant k <= |bare|
      invariant forall q :: 0 <= q < k ==> Strip(bare[q]) != value
    {
      if Strip(bare[k]) == value {
        return true;
      }
      k := k + 1;
    }
    return false;
  }

  /** `_list_has_p_value(dn, name, value)` on the session's tree */
  method ListHasValue(s: CliSession, dn: string, name: string, value: string) returns (r: bool)
    ensures r == ListHasPValue(s.xml.mos, dn, name, value)
  {
    var i := FindDn(s.xml.mos, dn);
    if i.None? {
      return false;
    }
    var j := FindListIn(s.xml.mos[i.value].lists, name);
    if j.None? {
      return false;
    }
    r := AnyStrippedIn(s.xml.mos[i.value].lists[j.value].bare, value);
  }

  // ----- _apply_rulebook_param -----

  /** `for idx, child in enumerate(children_list, start=k): self._set_list_param(key, str(idx), ...)` */
  method ReplayList(s: CliSession, key: string, children: seq<seq<(string, Option<string>)>>, k: nat)
    returns (out: Outcome)
    modifies s`xml, s`userInputs, s`errors
    ensures Step(s.NavState(), out) == ReplayChildren(old(s.NavState()), old(s.CtxState()), key, children, k, 0)
  {
    var t := 0;
    while t < |children|
      invariant t <= |children| && s.CtxState() == old(s.CtxState())
      invariant ReplayChildren(s.NavState(), s.CtxState(), key, children, k, t)
                == ReplayChildren(old(s.NavState()), old(s.CtxState()), key, children, k, 0)
    {
      var o := SetListParam(s, key, IntToString(k + t), RuleFields(children[t], s.btsId));
      if o.Raised? {
        return o;
      }
      t := t + 1;
    }
    return Done;
  }

  /** `for key, meta in rule_data.items(): <a list through its children, a scalar through _set_param>` */
  method ReplayRecord(s: CliSession, rec: Rules.Record) returns (out: Outcome)
    modifies s`xml, s`userInputs, s`errors
    ensures Step(s.NavState(), out) == Replay(old(s.NavState()), old(s.CtxState()), rec, 0)
  {
    var t := 0;
    while t < |rec|
      invariant t <= |rec| && s.CtxState() == old(s.CtxState())
      invariant Replay(s.NavState(), s.CtxState(), rec, t) == Replay(old(s.NavState()), old(s.CtxState()), rec, 0)
    {
      var o := ReplayOne(s, rec[t].0, rec[t].1);
      if o.Raised? {
        return o;
      }
      t := t + 1;
    }
    return Done;
  }

  /** One parameter of the record on the session */
  method ReplayOne(s: CliSession, key: string, e: Rules.RuleEntry) returns (out: Outcome)
    modifies s`xml, s`userInputs, s`errors
    ensures Step(s.NavState(), out) == ReplayEntry(old(s.NavState()), old(s.CtxState()), key, e)
  {
    match e {
      case Scalar(v) => out := SetParam(s, key, ReplaceRootId(v.GetOr("0"), s.btsId));
      case ListRule(children) => out := ReplayList(s, key, children, 1);
    }
  }

  /** `_apply_rulebook_param(cls, id)` on the session */
  method ApplyRules(s: CliSession, cls: string, id: string) returns (out: Outcome)
    modifies s`xml, s`userInputs, s`errors
    ensures Step(s.NavState(), out) == ApplyRulebook(old(s.NavState()), old(s.CtxState()), cls, id)
  {
    if cls == "ANTL" {
      return Done;
    }
    if s.rulebook.None? {
      return Raised("AttributeError");
    }
    var rec := ResolveRule(s.rulebook.value, cls, id, s.matchTail, s.btsId, s.iotLncelId);
    if rec.None? {
      return Done;
    }
    out := ReplayRecord(s, rec.value);
  }

  // ----- _create_managed_object, _enter_or_create_mo, default -----

  /** The ETHLK hook of `_create_managed_object` */
  method LinkEthlkM(s: CliSession) returns (out: Outcome)
    modifies s`xml, s`userInputs, s`errors
    ensures Step(s.NavState(), out) == LinkEthlk(old(s.NavState()), old(s.CtxState()))
  {
    if s.duType.None? {
      return Raised("AttributeError");
    }
    if Upper(s.duType.value) == "DU10" && Upper(s.ratType) == "4G" {
      if s.lastTrmodId.None? {
        return Raised("AttributeError");
      }
      out := SetParam(s, "modDN", "MRBTS-" + Show(s.btsId) + "/EQM-1/APEQM-1/CABINET-1/TRMOD-" + s.lastTrmodId.value);
    } else if Upper(s.duType.value) == "DU20" {
      out := SetParam(s, "modDN", "MRBTS-" + Show(s.btsId) + "/EQM-1/APEQM-1/CABINET-1/SMOD-1");
    } else {
      out := Done;
    }
  }

  /** `_create_managed_object(cls, id)` on the session */
  method CreateMo(s: CliSession, cls: string, id: string) returns (out: Outcome)
    modifies s`xml, s`userInputs, s`errors, s`moClass, s`lastTrmodId
    ensures Step(s.NavState(), out) == CreateSpec(old(s.NavState()), old(s.CtxState()), cls, id)
  {
    if EthlkBlocked(s.NavState(), s.CtxState(), cls) {
      s.PerrorM(MsgNoTrmod);
      return Done;
    }
    ghost var n, c := s.NavState(), s.CtxState();
    var mo := NewMo(s.NavState(), s.CtxState(), cls);
    ghost var n1 := n.(doc := Grow(n.doc, mo), moClass := Some(cls), inputs := n.inputs + [MoCreate(mo.dn)]);
    s.xml := Grow(s.xml, mo);
    s.moClass := Some(cls);
    s.userInputs := s.userInputs + [MoCreate(mo.dn)];
    assert s.NavState() == n1 && s.CtxState() == c;
    out := CreateHooksM(s, cls, id);
    assert CreateSpec(n, c, cls, id) == CreateHooks(n1, c, cls, id);
  }

  /** The rulebook defaults of the new object, then the TRMOD and ETHLK hooks. */
  method CreateHooksM(s: CliSession, cls: string, id: string) returns (out: Outcome)
    modifies s`xml, s`userInputs, s`errors, s`lastTrmodId
    ensures Step(s.NavState(), out) == CreateHooks(old(s.NavState()), old(s.CtxState()), cls, id)
  {
    out := ApplyRules(s, ActualClass(s.CtxState(), cls), id);
    if out.Raised? {
      return;
    }
    if cls == "TRMOD" {
      s.lastTrmodId := Some(id);
    }
    if cls == "ETHLK" {
      out := LinkEthlkM(s);
    }
  }

  /** The end of `_enter_or_create_mo`: move to the object of the current path, or create it. */
  method MoveOrCreateM(s: CliSession, cls: string, id: string) returns (out: Outcome)
    modifies s`xml, s`userInputs, s`errors, s`moClass, s`lastTrmodId
    ensures Step(s.NavState(), out) == MoveOrCreate(old(s.NavState()), old(s.CtxState()), cls, id)
  {
    var found := FindDn(s.xml.mos, s.matchTail);
    if found.Some? {
      s.moClass := Some(cls);
      return Done;
    }
    out := CreateMo(s, cls, id);
  }

  /** `_enter_or_create_mo(cls, id)` on the session */
  method EnterOrCreate(s: CliSession, cls: string, id: string) returns (out: Outcome)
    modifies s`btsId, s`matchTail, s`promptStack, s`xml, s`userInputs, s`errors, s`moClass, s`lastTrmodId
    ensures Step(s.NavState(), out) == EnterOrCreateSpec(old(s.NavState()), old(s.CtxState()), cls, id)
  {
    if !Truthy(s.btsId) {
      out := EnterFirstM(s, cls, id);
    } else {
      out := EnterChildM(s, cls, id);
    }
  }

  method EnterFirstM(s: CliSession, cls: string, id: string) returns (out: Outcome)
    modifies s`btsId, s`matchTail, s`promptStack, s`xml, s`userInputs, s`errors, s`moClass, s`lastTrmodId
    ensures Step(s.NavState(), out) == EnterFirst(old(s.NavState()), old(s.CtxState()), cls, id)
  {
    ghost var n, c := s.NavState(), s.CtxState();
    if cls != "MRBTS" {
      s.PerrorM(MsgRootFirst);
      assert EnterFirst(n, c, cls, id) == Step(Perror(n, MsgRootFirst), Done);
      return Done;
    }
    ghost var n1 := n.(btsId := Some(id), matchTail := "MRBTS-" + id, stack := ["MRBTS(" + id + ")"]);
    s.btsId, s.matchTail, s.promptStack := Some(id), "MRBTS-" + id, ["MRBTS(" + id + ")"];
    assert s.NavState() == n1 && s.CtxState() == c;
    out := MoveOrCreateM(s, cls, id);
    assert EnterFirst(n, c, cls, id) == MoveOrCreate(n1, c, cls, id);
  }

  method EnterChildM(s: CliSession, cls: string, id: string) returns (out: Outcome)
    modifies s`btsId, s`matchTail, s`promptStack, s`xml, s`userInputs, s`errors, s`moClass, s`lastTrmodId
    ensures Step(s.NavState(), out) == EnterChild(old(s.NavState()), old(s.CtxState()), cls, id)
  {
    match EnterVerdict(s.NavState(), s.CtxState(), cls, id)
    case Reject(m) =>
      s.PerrorM(m);
      return Done;
    case Crash(k) =>
      return Raised(k);
    case Pass =>
      var id1 := EnterId(s.NavState(), cls, id);
      s.matchTail := s.matchTail + "/" + cls + "-" + id1;
      s.promptStack := s.promptStack + [Lower(cls) + "(" + id1 + ")"];
      out := MoveOrCreateM(s, cls, id1);
  }

  /** `default(line)` on the session, once the line is split into tokens */
  method Default(s: CliSession, tokens: seq<string>) returns (out: Outcome)
    modifies s`btsId, s`matchTail, s`promptStack, s`xml, s`userInputs, s`errors, s`moClass, s`lastTrmodId
    ensures Step(s.NavState(), out) == DefaultSpec(old(s.NavState()), old(s.CtxState()), tokens)
  {
    match RouteOf(tokens)
    case EmptyLine =>
      s.PerrorM(MsgEmptyCommand);
      return Done;
    case ListUsage =>
      s.PerrorM(MsgListUsage);
      return Done;
    case ListWrite(name, index, key, value) =>
      out := SetListParam(s, name, index, [(key, value)]);
    case EnterMo(cls, id) =>
      out := EnterOrCreate(s, cls, id);
    case SetParam(key, value) =>
      out := SetParam(s, key, value);
    case Unrecognised =>
      s.PerrorM(MsgUnknownCommand);
      return Done;
  }
}
