// The setters of the tree commands (cli/common/mixins/tree_commands.py): `_set_param`,
// `_set_list_param`, and the replay of rulebook defaults onto a freshly created object
// (`_apply_rulebook_param`, with `replace_root_id` / `normalize_root_id`).
//
// Each operation is a function from the navigation state and the read-only context to the
// next state and an outcome; the session methods that perform them are in TreeCommands.

module TreeEdit {
  import opened Wrappers
  import opened Text
  import opened Tree
  import Schema
  import Rules
  import opened Session

  const MsgUnknownMo := "unknown MO"
  const MsgParamNotAllowed := "parameter not allowed for this MO"
  const MsgNoCurrentMo := "current MO not found"
  const MsgListNotAllowed := "list not allowed for this MO"
  const MsgNotAList := "not a list parameter"
  const MsgFieldNotAllowed := "list field not allowed"

  /** Replace object `i` of the tree. */
  function UpdateMo(n: Nav, i: nat, mo: MO): (r: Nav)
    requires i < |n.doc.mos|
    ensures Identity(mo) == Identity(n.doc.mos[i]) ==> SameSkeleton(n.doc, r.doc)
  {
    n.(doc := n.doc.(mos := n.doc.mos[i := mo]))
  }

  /** The current class is one the catalog knows. */
  predicate KnownClass(n: Nav, sch: Schema.Dict)
  {
    n.moClass.Some? && n.moClass.value in sch
  }

  // ----- _set_param -----

  /** `_set_param` writes exactly when the class is known, declares the name, and an object of
      that class whose distName ends with the current path exists. */
  predicate CanSetParam(n: Nav, sch: Schema.Dict, key: string)
  {
    KnownClass(n, sch) && Schema.Declares(sch[n.moClass.value].params, key)
    && FirstCurrent(n.doc.mos, n.moClass.value, n.matchTail).Some?
  }

  /** `_set_param(key, value)`. A catalog that was never loaded makes the membership test raise. */
  function SetParamSpec(n: Nav, c: Ctx, key: string, value: string): (r: Step)
    ensures SamePlace(n, r.st) && r.st.moClass == n.moClass && r.st.lastTrmodId == n.lastTrmodId
    ensures SameSkeleton(n.doc, r.st.doc)
    ensures r.out.Raised? <==> c.schema.None?
    ensures r.out.Raised? ==> r.st == n
    ensures c.schema.Some? && !CanSetParam(n, c.schema.value, key) ==>
              r.out.Done? && r.st.doc == n.doc && r.st.inputs == n.inputs && |r.st.errors| == |n.errors| + 1
    ensures c.schema.Some? && CanSetParam(n, c.schema.value, key) ==>
              r.out.Done? && r.st.errors == n.errors && r.st.inputs == n.inputs + [SetInput(n.matchTail, key, value)]
  {
    if c.schema.None? then Step(n, Raised("TypeError"))
    else if !KnownClass(n, c.schema.value) then Step(Perror(n, MsgUnknownMo), Done)
    else if !Schema.Declares(c.schema.value[n.moClass.value].params, key) then Step(Perror(n, MsgParamNotAllowed), Done)
    else
      match FirstCurrent(n.doc.mos, n.moClass.value, n.matchTail)
      case None => Step(Perror(n, MsgNoCurrentMo), Done)
      case Some(i) =>
        var mo := n.doc.mos[i];
        Step(UpdateMo(n, i, mo.(params := SetP(mo.params, key, value))).(inputs := n.inputs + [SetInput(n.matchTail, key, value)]), Done)
  }

  /** A successful `_set_param` changes one `p` of the first current object and nothing else. */
  lemma SetParamEffect(n: Nav, c: Ctx, key: string, value: string)
    requires c.schema.Some? && CanSetParam(n, c.schema.value, key)
    ensures var i := FirstCurrent(n.doc.mos, n.moClass.value, n.matchTail).value;
            var m := SetParamSpec(n, c, key, value).st.doc.mos;
            |m| == |n.doc.mos| && (forall j :: 0 <= j < |m| && j != i ==> m[j] == n.doc.mos[j])
            && m[i] == n.doc.mos[i].(params := m[i].params)
            && LookupP(m[i].params, key) == Some(value)
            && (forall k :: k != key ==> LookupP(m[i].params, k) == LookupP(n.doc.mos[i].params, k))
            && (LookupP(n.doc.mos[i].params, key).None? ==> m[i].params == n.doc.mos[i].params + [P(key, value)])
  {
    var i := FirstCurrent(n.doc.mos, n.moClass.value, n.matchTail).value;
    var mo := n.doc.mos[i];
    var ps := SetP(mo.params, key, value);
    assert SetParamSpec(n, c, key, value).st.doc.mos == n.doc.mos[i := mo.(params := ps)];
  }

  // ----- _set_list_param -----

  /** `param_dict.get(k)` on the field/value pairs of a list write: the first pair named `k`. */
  function FieldLookup(fs: seq<(string, string)>, k: string): (r: Option<string>)
    ensures r.Some? <==> exists j :: 0 <= j < |fs| && fs[j].0 == k
    decreases |fs|
  {
    if fs == [] then None
    else if fs[0].0 == k then Some(fs[0].1)
    else FieldLookup(fs[1..], k)
  }

  /** Some field other than `val` is not declared by the list. */
  predicate BadField(fs: seq<(string, string)>, decl: seq<(string, Schema.ParamEntry)>)
  {
    exists j :: 0 <= j < |fs| && fs[j].0 != "val" && !Schema.Declares(decl, fs[j].0)
  }

  /** The `while len(nodes) <= idx: append` padding: at least `len` entries, new ones `fill`. */
  function Pad<T>(s: seq<T>, len: int, fill: T): (r: seq<T>)
    ensures |r| == if len > |s| then len else |s|
    ensures forall j :: 0 <= j < |s| ==> r[j] == s[j]
    ensures forall j :: |s| <= j < |r| ==> r[j] == fill
  {
    if len <= |s| then s else s + seq(len - |s|, _ => fill)
  }

  /** Upsert each field of an item in order. */
  function SetFields(ps: seq<P>, fs: seq<(string, string)>): seq<P>
    decreases |fs|
  {
    if fs == [] then ps else SetFields(SetP(ps, fs[0].0, fs[0].1), fs[1..])
  }

  /** The value last given to `k`, if any */
  function LastValue(fs: seq<(string, string)>, k: string): (r: Option<string>)
    ensures r.Some? <==> exists j :: 0 <= j < |fs| && fs[j].0 == k
    decreases |fs|
  {
    if fs == [] then None
    else
      var rest := LastValue(fs[1..], k);
      if rest.Some? then rest else if fs[0].0 == k then Some(fs[0].1) else None
  }

  /** After the upserts, each field holds the last value written to it; others are unchanged. */
  lemma {:induction false} SetFieldsLookup(ps: seq<P>, fs: seq<(string, string)>, k: string)
    ensures LookupP(SetFields(ps, fs), k) == if LastValue(fs, k).Some? then LastValue(fs, k) else LookupP(ps, k)
    decreases |fs|
  {
    if fs != [] {
      SetFieldsLookup(SetP(ps, fs[0].0, fs[0].1), fs[1..], k);
    }
  }

  /** The inputs a record write logs, one per field. */
  function FieldInputs(tail: string, name: string, index: string, fs: seq<(string, string)>): (r: seq<UserInput>)
    ensures |r| == |fs|
    ensures forall j :: 0 <= j < |fs| ==> r[j] == SetListInput(tail, name, index, fs[j].0, fs[j].1)
  {
    seq(|fs|, j requires 0 <= j < |fs| => SetListInput(tail, name, index, fs[j].0, fs[j].1))
  }

  lemma SetFieldsStep(ps: seq<P>, fs: seq<(string, string)>, t: nat)
    requires t < |fs|
    ensures SetFields(SetP(ps, fs[t].0, fs[t].1), fs[t + 1..]) == SetFields(ps, fs[t..])
  {
    assert fs[t..][1..] == fs[t + 1..];
  }

  lemma FieldInputsSnoc(tail: string, name: string, index: string, fs: seq<(string, string)>, t: nat)
    requires t < |fs|
    ensures FieldInputs(tail, name, index, fs[..t + 1])
            == FieldInputs(tail, name, index, fs[..t]) + [SetListInput(tail, name, index, fs[t].0, fs[t].1)]
  {
  }

  /** The list named `name`, appended empty when the object has none. */
  function EnsureList(ls: seq<PList>, name: string): (r: (seq<PList>, nat))
    ensures r.1 < |r.0| && r.0[r.1].name == name
    ensures forall j :: 0 <= j < r.1 ==> r.0[j].name != name
  {
    match FindList(ls, name)
    case Some(j) => (ls, j)
    case None => (ls + [PList(name, [], [])], |ls|)
  }

  /** The list `_set_list_param` writes to, before the write: the existing one, or a new empty one. */
  function ListBefore(ls: seq<PList>, name: string): PList
  {
    match FindList(ls, name)
    case Some(j) => ls[j]
    case None => PList(name, [], [])
  }

  /** The checks of `_set_list_param` before it looks for the object. */
  predicate ListWriteAllowed(n: Nav, sch: Schema.Dict, name: string, fs: seq<(string, string)>)
  {
    KnownClass(n, sch)
    && Schema.Lookup(sch[n.moClass.value].params, name).Some?
    && Schema.Lookup(sch[n.moClass.value].params, name).value.ListParam?
    && !BadField(fs, Schema.Lookup(sch[n.moClass.value].params, name).value.fields)
  }

  /** `_set_list_param(name, index, fields)`. */
  function SetListSpec(n: Nav, c: Ctx, name: string, index: string, fs: seq<(string, string)>): (r: Step)
    ensures SamePlace(n, r.st) && r.st.moClass == n.moClass && r.st.lastTrmodId == n.lastTrmodId
    ensures SameSkeleton(n.doc, r.st.doc)
    ensures r.out.Raised? && r.out.kind == "TypeError" <==> c.schema.None?
    ensures c.schema.None? ==> r.st == n
    ensures c.schema.Some? && (!ListWriteAllowed(n, c.schema.value, name, fs)
                               || FirstCurrent(n.doc.mos, n.moClass.value, n.matchTail).None?) ==>
              r.out.Done? && r.st.doc == n.doc && r.st.inputs == n.inputs && |r.st.errors| == |n.errors| + 1
    ensures r.out.Raised? ==> r.st.inputs == n.inputs && r.st.errors == n.errors
  {
    if c.schema.None? then Step(n, Raised("TypeError"))
    else if !KnownClass(n, c.schema.value) then Step(Perror(n, MsgUnknownMo), Done)
    else
      var params := c.schema.value[n.moClass.value].params;
      match Schema.Lookup(params, name)
      case None => Step(Perror(n, MsgListNotAllowed), Done)
      case Some(e) =>
        if !e.ListParam? then Step(Perror(n, MsgNotAList), Done)
        else if BadField(fs, e.fields) then Step(Perror(n, MsgFieldNotAllowed), Done)
        else
          match FirstCurrent(n.doc.mos, n.moClass.value, n.matchTail)
          case None => Step(Perror(n, MsgNoCurrentMo), Done)
          case Some(i) => WriteList(n, i, name, index, fs)
  }

  /** The write itself, on object `i`: the list is created first, so it stays even when the
      index then fails to parse (ValueError) or is out of range (IndexError). */
  function WriteList(n: Nav, i: nat, name: string, index: string, fs: seq<(string, string)>): (r: Step)
    requires i < |n.doc.mos|
    ensures SamePlace(n, r.st) && r.st.moClass == n.moClass && r.st.lastTrmodId == n.lastTrmodId
    ensures SameSkeleton(n.doc, r.st.doc)
    ensures r.out.Raised? ==> r.out.kind != "TypeError" && r.st.inputs == n.inputs
    ensures r.st.errors == n.errors
  {
    var e := EnsureList(n.doc.mos[i].lists, name);
    var v := ParseInt(index);
    if v.None? then Step(UpdateMo(n, i, n.doc.mos[i].(lists := e.0)), Raised("ValueError"))
    else WriteIndexed(n, i, e.0, e.1, v.value, name, index, fs)
  }

  /** The write at the one-based index `v` into list `ls[j]`, which replaces the lists of object `i` */
  function WriteIndexed(n: Nav, i: nat, ls: seq<PList>, j: nat, v: int, name: string, index: string,
                        fs: seq<(string, string)>): (r: Step)
    requires i < |n.doc.mos| && j < |ls|
    ensures SamePlace(n, r.st) && r.st.moClass == n.moClass && r.st.lastTrmodId == n.lastTrmodId
    ensures SameSkeleton(n.doc, r.st.doc)
    ensures r.out.Raised? ==> r.out.kind == "IndexError" && r.st.inputs == n.inputs
    ensures r.st.errors == n.errors
  {
    var res := WriteAt(ls[j], v - 1, fs);
    var n1 := UpdateMo(n, i, n.doc.mos[i].(lists := ls[j := res.0]));
    if !res.1 then Step(n1, Raised("IndexError"))
    else Step(n1.(inputs := n.inputs + ListInputs(n.matchTail, name, index, fs)), Done)
  }

  /** The write replaces the lists of object `i`, so it does not matter what they were. */
  lemma WriteIndexedOver(n: Nav, n0: Nav, i: nat, ls: seq<PList>, j: nat, v: int, name: string, index: string,
                         fs: seq<(string, string)>)
    requires i < |n.doc.mos| && j < |ls| && n0 == UpdateMo(n, i, n.doc.mos[i].(lists := ls))
    ensures WriteIndexed(n0, i, ls, j, v, name, index, fs) == WriteIndexed(n, i, ls, j, v, name, index, fs)
  {
    var res := WriteAt(ls[j], v - 1, fs);
    assert UpdateMo(n0, i, n0.doc.mos[i].(lists := ls[j := res.0])) == UpdateMo(n, i, n.doc.mos[i].(lists := ls[j := res.0]));
  }

  /** The inputs a list write logs: one `val` entry, or one per field. */
  function ListInputs(tail: string, name: string, index: string, fs: seq<(string, string)>): seq<UserInput>
  {
    var val := FieldLookup(fs, "val");
    if val.Some? then [SetListInput(tail, name, index, "val", val.value)] else FieldInputs(tail, name, index, fs)
  }

  /** The `val` form when a `val` field is given, the record form otherwise */
  function WriteAt(l: PList, idx: int, fs: seq<(string, string)>): (r: (PList, bool))
    ensures r.0.name == l.name
  {
    var val := FieldLookup(fs, "val");
    if val.Some? then WriteVal(l, idx, val.value) else WriteRecord(l, idx, fs)
  }

  /** The `val` form on one list: pad the bare values, then set entry `idx` (Python indexing);
      the flag says whether the index was in range. */
  function WriteVal(l: PList, idx: int, val: string): (r: (PList, bool))
    ensures r.0.name == l.name && r.0.items == l.items
  {
    var bare := Pad(l.bare, idx + 1, "");
    var k := PyIndex(|bare|, idx);
    if k.None? then (l.(bare := bare), false) else (l.(bare := bare[k.value := val]), true)
  }

  /** The record form on one list: pad the items, then upsert the fields of item `idx`. */
  function WriteRecord(l: PList, idx: int, fs: seq<(string, string)>): (r: (PList, bool))
    ensures r.0.name == l.name && r.0.bare == l.bare
  {
    var items := Pad(l.items, idx + 1, []);
    var k := PyIndex(|items|, idx);
    if k.None? then (l.(items := items), false) else (l.(items := items[k.value := SetFields(items[k.value], fs)]), true)
  }

  /** After the write, the list named `name` is found where `EnsureList` put it. */
  lemma FindListAfterWrite(ls: seq<PList>, name: string, l: PList)
    requires l.name == name
    ensures var (ls1, j) := EnsureList(ls, name);
            FindList(ls1[j := l], name) == Some(j)
  {
    var (ls1, j) := EnsureList(ls, name);
    var ls2 := ls1[j := l];
    assert forall q :: 0 <= q < j ==> ls2[q].name != name;
    FindListAt(ls2, name, j);
  }

  lemma {:induction false} FindListAt(ls: seq<PList>, name: string, j: nat)
    requires j < |ls| && ls[j].name == name
    requires forall q :: 0 <= q < j ==> ls[q].name != name
    ensures FindList(ls, name) == Some(j)
    decreases j
  {
    if j > 0 {
      FindListAt(ls[1..], name, j - 1);
    }
  }

  /** `_set_list_param` with its checks passed writes to the first current object. */
  lemma SetListReachesWrite(n: Nav, c: Ctx, name: string, index: string, fs: seq<(string, string)>)
    requires c.schema.Some? && ListWriteAllowed(n, c.schema.value, name, fs)
    requires FirstCurrent(n.doc.mos, n.moClass.value, n.matchTail).Some?
    ensures SetListSpec(n, c, name, index, fs)
            == WriteList(n, FirstCurrent(n.doc.mos, n.moClass.value, n.matchTail).value, name, index, fs)
  {
  }

  /** `EnsureList` hands the writer the list `ListBefore` names. */
  lemma EnsureListBefore(ls: seq<PList>, name: string)
    ensures EnsureList(ls, name).0[EnsureList(ls, name).1] == ListBefore(ls, name)
  {
  }

  /** A write that found its index in range replaces the list in object `i` and logs the inputs. */
  lemma WriteListDone(n: Nav, i: nat, name: string, index: string, fs: seq<(string, string)>)
    requires i < |n.doc.mos| && ParseInt(index).Some?
    requires var (ls, j) := EnsureList(n.doc.mos[i].lists, name); WriteAt(ls[j], ParseInt(index).value - 1, fs).1
    ensures var (ls, j) := EnsureList(n.doc.mos[i].lists, name);
            var r := WriteList(n, i, name, index, fs);
            r.out.Done? && r.st.inputs == n.inputs + ListInputs(n.matchTail, name, index, fs)
            && r.st.doc.mos == n.doc.mos[i := n.doc.mos[i].(lists := ls[j := WriteAt(ls[j], ParseInt(index).value - 1, fs).0])]
  {
  }

  /** On one list, the `val` form with index `v`, one-based: padded with "", entry `v - 1` set. */
  lemma WriteValShape(l: PList, v: int, val: string)
    requires v >= 1
    ensures var (l1, ok) := WriteVal(l, v - 1, val);
            ok && l1.name == l.name && |l1.bare| == (if v > |l.bare| then v else |l.bare|)
            && l1.bare[v - 1] == val
            && (forall q :: 0 <= q < |l1.bare| && q != v - 1 ==> l1.bare[q] == if q < |l.bare| then l.bare[q] else "")
  {
  }

  /** On one list, the record form with index `v`, one-based: padded with [], item `v - 1` upserted. */
  lemma WriteRecordShape(l: PList, v: int, fs: seq<(string, string)>)
    requires v >= 1
    ensures var (l1, ok) := WriteRecord(l, v - 1, fs);
            ok && l1.name == l.name && |l1.items| == (if v > |l.items| then v else |l.items|)
            && l1.items[v - 1] == SetFields(if v - 1 < |l.items| then l.items[v - 1] else [], fs)
            && (forall q :: 0 <= q < |l1.items| && q != v - 1 ==> l1.items[q] == if q < |l.items| then l.items[q] else [])
  {
  }

  /** The `val` form with a positive index, on object `i`: the bare values are padded with "" up to `index`
      entries, entry `index - 1` becomes the value, and the other entries are kept. */
  lemma WriteListValEffect(n: Nav, i: nat, name: string, index: string, fs: seq<(string, string)>, v: int)
    requires i < |n.doc.mos|
    requires ParseInt(index) == Some(v) && v >= 1
    requires FieldLookup(fs, "val").Some?
    ensures var r := WriteList(n, i, name, index, fs);
            var m := r.st.doc.mos;
            var b0 := ListBefore(n.doc.mos[i].lists, name).bare;
            r.out.Done? && r.st.inputs == n.inputs + [SetListInput(n.matchTail, name, index, "val", FieldLookup(fs, "val").value)]
            && |m| == |n.doc.mos| && (forall q :: 0 <= q < |m| && q != i ==> m[q] == n.doc.mos[q])
            && FindList(m[i].lists, name).Some?
            && var b := m[i].lists[FindList(m[i].lists, name).value].bare;
               |b| == (if v > |b0| then v else |b0|)
               && b[v - 1] == FieldLookup(fs, "val").value
               && (forall q :: 0 <= q < |b| && q != v - 1 ==> b[q] == if q < |b0| then b0[q] else "")
  {
    var val := FieldLookup(fs, "val").value;
    var mo := n.doc.mos[i];
    var (ls, j) := EnsureList(mo.lists, name);
    EnsureListBefore(mo.lists, name);
    var res := WriteAt(ls[j], v - 1, fs);
    assert res == WriteVal(ls[j], v - 1, val);
    WriteValShape(ls[j], v, val);
    WriteListDone(n, i, name, index, fs);
    FindListAfterWrite(mo.lists, name, res.0);
    var m := WriteList(n, i, name, index, fs).st.doc.mos;
    assert m[i].lists[j] == res.0;
  }

  /** The record form with a positive index, on object `i`: items are padded with empty records up to `index`
      entries, and item `index - 1` gets each field upserted; the other items are kept. */
  lemma WriteListRecordEffect(n: Nav, i: nat, name: string, index: string, fs: seq<(string, string)>, v: int)
    requires i < |n.doc.mos|
    requires ParseInt(index) == Some(v) && v >= 1
    requires FieldLookup(fs, "val").None?
    ensures var r := WriteList(n, i, name, index, fs);
            var m := r.st.doc.mos;
            var it0 := ListBefore(n.doc.mos[i].lists, name).items;
            r.out.Done? && r.st.inputs == n.inputs + FieldInputs(n.matchTail, name, index, fs)
            && |m| == |n.doc.mos| && (forall q :: 0 <= q < |m| && q != i ==> m[q] == n.doc.mos[q])
            && FindList(m[i].lists, name).Some?
            && var it := m[i].lists[FindList(m[i].lists, name).value].items;
               |it| == (if v > |it0| then v else |it0|)
               && it[v - 1] == SetFields(if v - 1 < |it0| then it0[v - 1] else [], fs)
               && (forall q :: 0 <= q < |it| && q != v - 1 ==> it[q] == if q < |it0| then it0[q] else [])
  {
    var mo := n.doc.mos[i];
    var (ls, j) := EnsureList(mo.lists, name);
    EnsureListBefore(mo.lists, name);
    var res := WriteAt(ls[j], v - 1, fs);
    assert res == WriteRecord(ls[j], v - 1, fs);
    WriteRecordShape(ls[j], v, fs);
    WriteListDone(n, i, name, index, fs);
    FindListAfterWrite(mo.lists, name, res.0);
    var m := WriteList(n, i, name, index, fs).st.doc.mos;
    assert m[i].lists[j] == res.0;
  }

  // ----- root id substitution -----

  /** `replace_root_id`: the placeholder id 000 of the three roots becomes the live id. */
  function ReplaceRootId(value: string, bts: Option<string>): string
  {
    var b := Show(bts);
    var v1 := ReplaceAll(value, "MRBTS-000", "MRBTS-" + b);
    var v2 := ReplaceAll(v1, "NRBTS-000", "NRBTS-" + b);
    ReplaceAll(v2, "LNBTS-000", "LNBTS-" + b)
  }

  /** `normalize_root_id`: the live id of the three roots becomes the placeholder 000. */
  function NormalizeRootId(value: string, bts: Option<string>): string
  {
    var b := Show(bts);
    var v1 := ReplaceAll(value, "MRBTS-" + b, "MRBTS-000");
    var v2 := ReplaceAll(v1, "NRBTS-" + b, "NRBTS-000");
    ReplaceAll(v2, "LNBTS-" + b, "LNBTS-000")
  }

  /** With the placeholder itself as live id, both substitutions change nothing. */
  lemma RootIdPlaceholder(value: string)
    ensures ReplaceRootId(value, Some("000")) == value
    ensures NormalizeRootId(value, Some("000")) == value
  {
    assert "MRBTS-" + "000" == "MRBTS-000" && "NRBTS-" + "000" == "NRBTS-000" && "LNBTS-" + "000" == "LNBTS-000";
    ReplaceSelf(value, "MRBTS-000");
    ReplaceSelf(value, "NRBTS-000");
    ReplaceSelf(value, "LNBTS-000");
  }

  // ----- rule resolution -----

  /** The class-level rules `rulebook.get(cls)`, when they exist and are not empty */
  function ClassRules(rb: Rules.Rulebook, cls: string): Option<seq<(string, Rules.Record)>>
  {
    if cls in rb && rb[cls].ByClass? && rb[cls].ids != [] then Some(rb[cls].ids) else None
  }

  /** The IoT cell and the SIB/DRX/SDRX objects under it take the rule "999". */
  function IotRule(ids: seq<(string, Rules.Record)>, cls: string, id: string, tail: string,
                   iot: Option<string>): Option<Rules.Record>
  {
    if cls == "LNCEL" && iot == Some(id) then Rules.LookupId(ids, "999")
    else if cls in {"SIB", "DRX", "SDRX"} && tail != "" && Contains(tail, "LNCEL-" + Show(iot)) then
      Rules.LookupId(ids, "999")
    else None
  }

  /** A top-level distName entry of the rulebook */
  function DistRule(rb: Rules.Rulebook, key: string): Option<Rules.Record>
  {
    if key in rb && rb[key].ByDist? then Some(rb[key].rec) else None
  }

  /** The lookup by key: with two or more top-level keys ending in `cls-id`, the distName entry
      of the root-normalised path, else of `cls-id`; otherwise the id, "000", "__default__" chain. */
  function KeyedRule(rb: Rules.Rulebook, ids: seq<(string, Rules.Record)>, cls: string, id: string,
                     tail: string, bts: Option<string>): Option<Rules.Record>
  {
    var mk := cls + "-" + id;
    if Rules.CountEndingWith(rb, mk) >= 2 then
      var rk := NormalizeRootId(tail, bts);
      if rk in rb then DistRule(rb, rk) else if mk in rb then DistRule(rb, mk) else None
    else Rules.Or3(Rules.LookupId(ids, id), Rules.LookupId(ids, "000"), Rules.LookupId(ids, "__default__"))
  }

  /** The record whose values are replayed onto a new `cls-id`; the last resort is the smallest id. */
  function ResolveRule(rb: Rules.Rulebook, cls: string, id: string, tail: string, bts: Option<string>,
                       iot: Option<string>): (r: Option<Rules.Record>)
    ensures ClassRules(rb, cls).None? ==> r.None?
  {
    match ClassRules(rb, cls)
    case None => None
    case Some(ids) =>
      var first := IotRule(ids, cls, id, tail, iot);
      var second := if first.Some? then first else KeyedRule(rb, ids, cls, id, tail, bts);
      if second.Some? then second else Rules.LookupId(ids, Rules.MinKey(Rules.Keys(ids)))
  }

  /** A class with rules always yields a record. */
  lemma ResolveRuleFound(rb: Rules.Rulebook, cls: string, id: string, tail: string, bts: Option<string>,
                         iot: Option<string>)
    requires ClassRules(rb, cls).Some?
    ensures ResolveRule(rb, cls, id, tail, bts, iot).Some?
  {
    var ids := ClassRules(rb, cls).value;
    var ks := Rules.Keys(ids);
    var m := Rules.MinKey(ks);
    var j :| 0 <= j < |ks| && ks[j] == m;
    assert ids[j].0 == m;
  }

  /** With fewer than two keys ending in `cls-id` (in particular exactly one), the id chain is
      used: a non-empty record under the id itself wins. */
  lemma ResolveRuleById(rb: Rules.Rulebook, cls: string, id: string, tail: string, bts: Option<string>,
                        iot: Option<string>)
    requires ClassRules(rb, cls).Some?
    requires IotRule(ClassRules(rb, cls).value, cls, id, tail, iot).None?
    requires Rules.CountEndingWith(rb, cls + "-" + id) < 2
    requires Rules.Truthy(Rules.LookupId(ClassRules(rb, cls).value, id))
    ensures ResolveRule(rb, cls, id, tail, bts, iot) == Rules.LookupId(ClassRules(rb, cls).value, id)
  {
  }

  /** When no rule applies by id, "000", "__default__" or distName, the smallest id's record is used. */
  lemma ResolveRuleFallback(rb: Rules.Rulebook, cls: string, id: string, tail: string, bts: Option<string>,
                            iot: Option<string>)
    requires ClassRules(rb, cls).Some?
    requires IotRule(ClassRules(rb, cls).value, cls, id, tail, iot).None?
    requires KeyedRule(rb, ClassRules(rb, cls).value, cls, id, tail, bts).None?
    ensures var ids := ClassRules(rb, cls).value;
            var r := ResolveRule(rb, cls, id, tail, bts, iot);
            r.Some? && (exists j :: 0 <= j < |ids| && ids[j] == (Rules.MinKey(Rules.Keys(ids)), r.value))
            && forall q :: 0 <= q < |ids| ==> !Rules.StrLess(ids[q].0, Rules.MinKey(Rules.Keys(ids)))
  {
    ResolveRuleFound(rb, cls, id, tail, bts, iot);
    var ids := ClassRules(rb, cls).value;
    var ks := Rules.Keys(ids);
    forall q | 0 <= q < |ids| ensures !Rules.StrLess(ids[q].0, Rules.MinKey(ks)) {
      assert ks[q] == ids[q].0;
      assert ks[q] in ks;
    }
  }

  // ----- replay -----

  /** The field values of one rule child, as `_set_list_param` receives them */
  function RuleFields(child: seq<(string, Option<string>)>, bts: Option<string>): (r: seq<(string, string)>)
    ensures |r| == |child|
    ensures forall j :: 0 <= j < |child| ==> r[j].0 == child[j].0
  {
    seq(|child|, j requires 0 <= j < |child| => (child[j].0, ReplaceRootId(child[j].1.GetOr("0"), bts)))
  }

  /** The children of a list rule, written at indexes `k`, `k + 1`, ...; an exception stops the replay.
      (A child `{"val": ...}` and any other child reach `_set_list_param` the same way.) */
  function ReplayChildren(n: Nav, c: Ctx, key: string, children: seq<seq<(string, Option<string>)>>, k: nat, t: nat): (r: Step)
    ensures SamePlace(n, r.st) && r.st.moClass == n.moClass && r.st.lastTrmodId == n.lastTrmodId
    ensures SameSkeleton(n.doc, r.st.doc)
    ensures c.schema.None? && t < |children| ==> r == Step(n, Raised("TypeError"))
    decreases |children| - t
  {
    if t >= |children| then Step(n, Done)
    else
      var st := SetListSpec(n, c, key, IntToString(k + t), RuleFields(children[t], n.btsId));
      if st.out.Raised? then st else ReplayChildren(st.st, c, key, children, k, t + 1)
  }

  /** One parameter of the record: a scalar through `_set_param`, a list through its children. */
  function ReplayEntry(n: Nav, c: Ctx, key: string, e: Rules.RuleEntry): (r: Step)
    ensures SamePlace(n, r.st) && r.st.moClass == n.moClass && r.st.lastTrmodId == n.lastTrmodId
    ensures SameSkeleton(n.doc, r.st.doc)
  {
    match e
    case Scalar(v) => SetParamSpec(n, c, key, ReplaceRootId(v.GetOr("0"), n.btsId))
    case ListRule(children) => ReplayChildren(n, c, key, children, 1, 0)
  }

  /** The parameters of the record, in order; an exception stops the replay. */
  function Replay(n: Nav, c: Ctx, rec: Rules.Record, t: nat): (r: Step)
    ensures SamePlace(n, r.st) && r.st.moClass == n.moClass && r.st.lastTrmodId == n.lastTrmodId
    ensures SameSkeleton(n.doc, r.st.doc)
    ensures t >= |rec| ==> r == Step(n, Done)
    decreases |rec| - t
  {
    if t >= |rec| then Step(n, Done)
    else
      var st := ReplayEntry(n, c, rec[t].0, rec[t].1);
      if st.out.Raised? then st else Replay(st.st, c, rec, t + 1)
  }

  /** `_apply_rulebook_param(cls, id)`: ANTL never takes defaults; a rulebook that was never
      loaded makes the lookup raise. */
  function ApplyRulebook(n: Nav, c: Ctx, cls: string, id: string): (r: Step)
    ensures SamePlace(n, r.st) && r.st.moClass == n.moClass && r.st.lastTrmodId == n.lastTrmodId
    ensures SameSkeleton(n.doc, r.st.doc)
    ensures cls == "ANTL" ==> r == Step(n, Done)
    ensures cls != "ANTL" && c.rulebook.None? ==> r == Step(n, Raised("AttributeError"))
    ensures cls != "ANTL" && c.rulebook.Some? && ClassRules(c.rulebook.value, cls).None? ==> r == Step(n, Done)
  {
    if cls == "ANTL" then Step(n, Done)
    else if c.rulebook.None? then Step(n, Raised("AttributeError"))
    else
      match ResolveRule(c.rulebook.value, cls, id, n.matchTail, n.btsId, c.iotLncelId)
      case None => Step(n, Done)
      case Some(rec) => Replay(n, c, rec, 0)
  }
}
