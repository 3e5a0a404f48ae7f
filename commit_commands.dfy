// The commit commands (cli/common/mixins/commit_commands.py): which extraction `commit` runs,
// the two change-set extractions against the reference tree (distName-only and field by field),
// and what each command leaves in the session: the error log, the last commit file and the
// `cmd_status` flag of the configuration.

module CommitCommands {
  import opened Wrappers
  import opened Text
  import opened Tree
  import opened Session
  import ClientConfig
  import CommitUtils

  // ----- do_commit routing -----

  /** The internal command `commit` hands over to. */
  datatype Route = ToCommitAll | ToCommitDiff | ToCommitDiffPara

  /** `do_commit`: bts mode commits the whole tree translated once, a 4G cell commits the new
      objects translated twice, a 5G cell commits the changed objects translated once; any other
      mode does nothing. */
  function CommitRoute(mode: Option<string>, rat: string): (r: Option<(Route, CommitUtils.Mode)>)
    ensures r.Some? <==> mode == Some("bts") || (mode == Some("cell") && (Upper(rat) == "4G" || Upper(rat) == "5G"))
    ensures mode == Some("bts") ==> r == Some((ToCommitAll, CommitUtils.Once))
    ensures mode == Some("cell") && Upper(rat) == "4G" ==> r == Some((ToCommitDiff, CommitUtils.Twice))
    ensures mode == Some("cell") && Upper(rat) == "5G" ==> r == Some((ToCommitDiffPara, CommitUtils.Once))
    ensures r.Some? && r.value.0 != ToCommitAll ==> mode == Some("cell")
  {
    if mode == Some("bts") then Some((ToCommitAll, CommitUtils.Once))
    else if mode == Some("cell") && Upper(rat) == "4G" then Some((ToCommitDiff, CommitUtils.Twice))
    else if mode == Some("cell") && Upper(rat) == "5G" then Some((ToCommitDiffPara, CommitUtils.Once))
    else None
  }

  // ----- file names -----

  /** `s.rfind(c)` */
  function LastIndexOf(s: string, c: char): (r: Option<nat>)
    ensures r.Some? ==> r.value < |s| && s[r.value] == c && c !in s[r.value + 1..]
    ensures r.None? ==> c !in s
    decreases |s|
  {
    if s == [] then None
    else if s[|s| - 1] == c then Some(|s| - 1)
    else
      var r := LastIndexOf(s[..|s| - 1], c);
      if r.Some? then
        assert s[r.value + 1..] == s[..|s| - 1][r.value + 1..] + [s[|s| - 1]];
        r
      else
        assert s == s[..|s| - 1] + [s[|s| - 1]];
        None
  }

  /** Some character of `s[from..to]` is not a dot. */
  predicate HasNonDot(s: string, from: nat, to: nat)
    requires from <= to <= |s|
  {
    exists i :: from <= i < to && s[i] != '.'
  }

  /** `os.path.splitext(p)[0]`: `p` without the extension after the last dot of its last path
      component; a component made of leading dots only has no extension. */
  function DropExtension(p: string): (r: string)
    ensures StartsWith(p, r)
    ensures r != p ==> p[|r|] == '.' && '.' !in p[|r| + 1..] && '/' !in p[|r|..]
    ensures r != p ==> |p| - |AfterLast(p, '/')| <= |r|
    ensures r != p ==> HasNonDot(p, |p| - |AfterLast(p, '/')|, |r|)
  {
    var dot := LastIndexOf(p, '.');
    var base := AfterLast(p, '/');
    AfterLastSuffix(p, '/');
    var start := |p| - |base|;
    if dot.None? || dot.value < start then p
    else if HasNonDot(p, start, dot.value) then
      assert '/' !in p[dot.value..] by {
        assert p[dot.value..] == base[dot.value - start..];
      }
      p[..dot.value]
    else p
  }

  /** The file stem: the reference configuration without its extension, or `MRBTS<bts_id>`. */
  function BaseName(reference: ClientConfig.Val, btsId: Option<string>): string
  {
    if reference.Str? && reference.s != "" then DropExtension(reference.s) else "MRBTS" + Show(btsId)
  }

  /** `{base}__{tag}_{timestamp}[_translated]__{task_key}.xml` */
  function CommitFileName(tag: string, base: string, timestamp: string, translated: bool, taskKey: string): (r: string)
    ensures StartsWith(r, base + "__" + tag + "_" + timestamp)
    ensures EndsWith(r, "__" + taskKey + ".xml")
    ensures translated <==> |r| == |base + "__" + tag + "_" + timestamp + "__" + taskKey + ".xml"| + 11
  {
    var r := base + "__" + tag + "_" + timestamp + (if translated then "_translated" else "") + "__" + taskKey + ".xml";
    assert r[..|base + "__" + tag + "_" + timestamp|] == base + "__" + tag + "_" + timestamp;
    assert r[|r| - |"__" + taskKey + ".xml"|..] == "__" + taskKey + ".xml";
    r
  }

  // ----- commit_diff: the distName-only extraction -----

  /** The distNames of the reference objects (missing ones are skipped). */
  function RefDns(ref: seq<MO>): (r: set<string>)
    ensures forall d :: d in r <==> d != "" && exists i :: 0 <= i < |ref| && ref[i].dn == d
    decreases |ref|
  {
    if ref == [] then {}
    else
      var n := |ref| - 1;
      var r := RefDns(ref[..n]);
      assert forall i :: 0 <= i < n ==> ref[..n][i] == ref[i];
      if ref[n].dn != "" then r + {ref[n].dn} else r
  }

  /** A current object the distName-only diff keeps: a tombstone, or one the reference lacks. */
  predicate CoarseKeeps(mo: MO, refDns: set<string>)
  {
    mo.op == "delete" || (mo.dn != "" && mo.dn !in refDns)
  }

  /** What it keeps: a tombstone as it is, any other object retagged `create`. */
  function CoarseEntry(mo: MO): MO
  {
    if mo.op == "delete" then mo else mo.(op := "create")
  }

  /** The objects `commit_diff` writes, in the current tree's order. */
  function CoarseDiff(cur: seq<MO>, refDns: set<string>): (r: seq<MO>)
    ensures |r| <= |cur|
    ensures forall y :: y in r ==> y.op == "delete" || (y.op == "create" && y.dn != "" && y.dn !in refDns)
    decreases |cur|
  {
    if cur == [] then []
    else
      var n := |cur| - 1;
      CoarseDiff(cur[..n], refDns) + (if CoarseKeeps(cur[n], refDns) then [CoarseEntry(cur[n])] else [])
  }

  /** Exactly the kept objects of the current tree appear, and nothing else. */
  lemma {:induction false} CoarseDiffMembers(cur: seq<MO>, refDns: set<string>, y: MO)
    ensures y in CoarseDiff(cur, refDns) <==> exists i :: 0 <= i < |cur| && CoarseKeeps(cur[i], refDns) && y == CoarseEntry(cur[i])
    decreases |cur|
  {
    if cur != [] {
      var n := |cur| - 1;
      CoarseDiffMembers(cur[..n], refDns, y);
      assert forall i :: 0 <= i < n ==> cur[..n][i] == cur[i];
    }
  }

  /** Committing the reference itself, with no tombstone in it, yields no object. */
  lemma {:induction false} CoarseDiffOfReference(ref: seq<MO>, part: nat)
    requires part <= |ref|
    requires forall i :: 0 <= i < |ref| ==> ref[i].op != "delete"
    ensures CoarseDiff(ref[..part], RefDns(ref)) == []
  {
    if part > 0 {
      CoarseDiffOfReference(ref, part - 1);
      assert ref[..part][..part - 1] == ref[..part - 1];
      assert ref[..part][part - 1] == ref[part - 1];
    }
  }

  // ----- commit_diff_para: the field-by-field extraction -----

  /** Named fields to their text, a later field of a name winning (a dict comprehension). */
  function NameMap(ps: seq<P>): map<string, string>
    decreases |ps|
  {
    if ps == [] then map[]
    else
      var n := |ps| - 1;
      var m := NameMap(ps[..n]);
      if ps[n].name != "" then m[ps[n].name := ps[n].text] else m
  }

  /** The fields with their text stripped */
  function Stripped(ps: seq<P>): (r: seq<P>)
    ensures |r| == |ps| && forall j :: 0 <= j < |ps| ==> r[j] == P(ps[j].name, Strip(ps[j].text))
  {
    seq(|ps|, j requires 0 <= j < |ps| => P(ps[j].name, Strip(ps[j].text)))
  }

  /** `_collect_p_map`: named `p`s to their stripped text. */
  function PMap(ps: seq<P>): map<string, string>
  {
    NameMap(Stripped(ps))
  }

  /** The collected names are exactly the non-empty names of the fields. */
  lemma {:induction false} NameMapKeys(ps: seq<P>, k: string)
    ensures k in NameMap(ps) <==> k != "" && exists j :: 0 <= j < |ps| && ps[j].name == k
    decreases |ps|
  {
    if ps != [] {
      var n := |ps| - 1;
      var t := ps[..n];
      NameMapKeys(t, k);
      if k in NameMap(ps) {
        if k in NameMap(t) {
          var j :| 0 <= j < |t| && t[j].name == k;
          assert ps[j] == t[j];
        } else {
          assert ps[n].name == k;
        }
      }
      if k != "" && exists j :: 0 <= j < |ps| && ps[j].name == k {
        var j :| 0 <= j < |ps| && ps[j].name == k;
        if j < n {
          assert t[j] == ps[j];
        }
      }
    }
  }

  /** A name's value is the text of its last field. */
  lemma {:induction false} NameMapLast(ps: seq<P>, j: nat)
    requires j < |ps| && ps[j].name != ""
    requires forall l :: j < l < |ps| ==> ps[l].name != ps[j].name
    ensures ps[j].name in NameMap(ps) && NameMap(ps)[ps[j].name] == ps[j].text
    decreases |ps|
  {
    var n := |ps| - 1;
    var t := ps[..n];
    if j < n {
      assert t[j] == ps[j];
      forall l | j < l < |t| ensures t[l].name != t[j].name {
        assert t[l] == ps[l];
      }
      NameMapLast(t, j);
      assert ps[n].name != ps[j].name;
    }
  }

  lemma PMapKeys(ps: seq<P>, k: string)
    ensures k in PMap(ps) <==> k != "" && exists j :: 0 <= j < |ps| && ps[j].name == k
  {
    NameMapKeys(Stripped(ps), k);
    if k != "" && exists j :: 0 <= j < |ps| && ps[j].name == k {
      var j :| 0 <= j < |ps| && ps[j].name == k;
      assert Stripped(ps)[j].name == k;
    }
  }

  /** A name's value is the stripped text of its last field. */
  lemma PMapLast(ps: seq<P>, j: nat)
    requires j < |ps| && ps[j].name != ""
    requires forall l :: j < l < |ps| ==> ps[l].name != ps[j].name
    ensures ps[j].name in PMap(ps) && PMap(ps)[ps[j].name] == Strip(ps[j].text)
  {
    var sp := Stripped(ps);
    forall l | j < l < |sp| ensures sp[l].name != sp[j].name {
      assert sp[l].name == ps[l].name;
    }
    NameMapLast(sp, j);
  }

  /** No two named fields share a name. */
  predicate DistinctNames(ps: seq<P>)
  {
    forall i, j :: 0 <= i < j < |ps| && ps[i].name != "" ==> ps[i].name != ps[j].name
  }

  /** The order of the fields does not matter: two field sequences with the same fields and no
      repeated name collect to the same map (the sorted-tuple normalisation of an item). */
  lemma FieldOrderIgnored(ps: seq<P>, qs: seq<P>)
    requires DistinctNames(ps) && DistinctNames(qs)
    requires forall p :: p in ps <==> p in qs
    ensures PMap(ps) == PMap(qs)
  {
    var a, b := PMap(ps), PMap(qs);
    forall k | k in a ensures k in b && b[k] == a[k] {
      PMapKeys(ps, k);
      var j :| 0 <= j < |ps| && ps[j].name == k;
      assert ps[j] in qs;
      var l :| 0 <= l < |qs| && qs[l] == ps[j];
      PMapLast(ps, j);
      PMapLast(qs, l);
    }
    forall k | k in b ensures k in a {
      PMapKeys(qs, k);
      var l :| 0 <= l < |qs| && qs[l].name == k;
      assert qs[l] in ps;
      var j :| 0 <= j < |ps| && ps[j] == qs[l];
      PMapKeys(ps, k);
    }
  }

  /** One list as the comparison sees it: its stripped bare values and its non-empty items. */
  datatype ListEntry = ListEntry(pValues: seq<string>, items: seq<map<string, string>>)

  /** The items of a list as field maps, items without a named field dropped. */
  function ItemMaps(items: seq<seq<P>>): (r: seq<map<string, string>>)
    ensures |r| <= |items|
    ensures forall m :: m in r ==> m != map[]
    decreases |items|
  {
    if items == [] then []
    else
      var n := |items| - 1;
      var m := PMap(items[n]);
      ItemMaps(items[..n]) + (if m != map[] then [m] else [])
  }

  function ListEntryOf(l: PList): ListEntry
  {
    ListEntry(seq(|l.bare|, i requires 0 <= i < |l.bare| => Strip(l.bare[i])), ItemMaps(l.items))
  }

  /** `_normalize_list_for_compare(_collect_list_map(mo))`: named lists, a later list of a name winning. */
  function ListMap(ls: seq<PList>): map<string, ListEntry>
    decreases |ls|
  {
    if ls == [] then map[]
    else
      var n := |ls| - 1;
      var m := ListMap(ls[..n]);
      if ls[n].name != "" then m[ls[n].name := ListEntryOf(ls[n])] else m
  }

  /** What the comparison reads from an object */
  datatype Snapshot = Snapshot(ps: map<string, string>, ls: map<string, ListEntry>)

  function SnapshotOf(mo: MO): Snapshot
  {
    Snapshot(PMap(mo.params), ListMap(mo.lists))
  }

  /** `ref_list_map.get(name, default_list)` */
  function ListOr(m: map<string, ListEntry>, name: string): ListEntry
  {
    if name in m then m[name] else ListEntry([], [])
  }

  /** The three difference tests of `do_commit_diff_para`: parameters, list names, list contents. */
  predicate Changed(mo: MO, ref: Snapshot)
  {
    var cp := PMap(mo.params);
    var cl := ListMap(mo.lists);
    var pChanged := (exists k :: k in cp && (k !in ref.ps || ref.ps[k] != cp[k])) || (exists k :: k in ref.ps && k !in cp);
    var namesChanged := cl.Keys != ref.ls.Keys;
    var contentChanged := exists name :: name in cl.Keys + ref.ls.Keys && ListOr(cl, name) != ListOr(ref.ls, name);
    pChanged || namesChanged || contentChanged
  }

  /** The three tests together say no more and no less than "the snapshots differ". */
  lemma ChangedIff(mo: MO, ref: Snapshot)
    ensures Changed(mo, ref) <==> SnapshotOf(mo) != ref
  {
    var cp := PMap(mo.params);
    var cl := ListMap(mo.lists);
    if !Changed(mo, ref) {
      assert cp == ref.ps;
      forall name | name in cl ensures cl[name] == ref.ls[name] {
        assert ListOr(cl, name) == ListOr(ref.ls, name);
      }
      assert cl == ref.ls;
    }
  }

  /** The reference objects by distName (missing ones skipped, a later one winning); `do_commit_diff_para`
      keeps each one's collected `p` and list maps, which are `SnapshotOf` the object. */
  function FineIndex(ref: seq<MO>): map<string, MO>
    decreases |ref|
  {
    if ref == [] then map[]
    else
      var n := |ref| - 1;
      var m := FineIndex(ref[..n]);
      if ref[n].dn != "" then m[ref[n].dn := ref[n]] else m
  }

  /** The distName the fine diff works with: a missing one reads "<unknown>". */
  function Dist(mo: MO): string
  {
    if mo.dn == "" then "<unknown>" else mo.dn
  }

  /** What `commit_diff_para` writes for one current object, if anything. */
  function FineEntry(mo: MO, idx: map<string, MO>): Option<MO>
  {
    if Lower(mo.op) == "delete" then Some(MO(mo.cls, Dist(mo), mo.version, "delete", [], []))
    else if Dist(mo) !in idx then Some(mo.(op := "create"))
    else if Changed(mo, SnapshotOf(idx[Dist(mo)])) then Some(mo.(op := "update"))
    else None
  }

  /** A tombstone is re-emitted bare; an object the reference lacks is created whole; any other
      is written whole as an update exactly when its parameters or lists differ. */
  lemma FineEntryCases(mo: MO, idx: map<string, MO>)
    ensures Lower(mo.op) == "delete" ==> FineEntry(mo, idx) == Some(MO(mo.cls, Dist(mo), mo.version, "delete", [], []))
    ensures Lower(mo.op) != "delete" && Dist(mo) !in idx ==> FineEntry(mo, idx) == Some(mo.(op := "create"))
    ensures Lower(mo.op) != "delete" && Dist(mo) in idx ==>
              (FineEntry(mo, idx).None? <==> SnapshotOf(mo) == SnapshotOf(idx[Dist(mo)]))
              && (FineEntry(mo, idx).Some? ==> FineEntry(mo, idx).value == mo.(op := "update"))
  {
    if Lower(mo.op) != "delete" && Dist(mo) in idx {
      ChangedIff(mo, SnapshotOf(idx[Dist(mo)]));
    }
  }

  /** The entry of every current object, in order */
  function FineEntries(cur: seq<MO>, idx: map<string, MO>): (r: seq<Option<MO>>)
    ensures |r| == |cur| && forall i :: 0 <= i < |cur| ==> r[i] == FineEntry(cur[i], idx)
  {
    seq(|cur|, i requires 0 <= i < |cur| => FineEntry(cur[i], idx))
  }

  /** The objects `commit_diff_para` writes, in the current tree's order. */
  function FineDiff(cur: seq<MO>, idx: map<string, MO>): seq<MO>
  {
    Somes(FineEntries(cur, idx))
  }

  /** Exactly the written entries of the current objects appear, and nothing else; each is a
      delete, a create or an update. */
  lemma FineDiffMembers(cur: seq<MO>, idx: map<string, MO>, y: MO)
    ensures y in FineDiff(cur, idx) <==> exists i :: 0 <= i < |cur| && FineEntry(cur[i], idx) == Some(y)
    ensures y in FineDiff(cur, idx) ==> y.op == "delete" || y.op == "create" || y.op == "update"
  {
    var es := FineEntries(cur, idx);
    SomesMembers(es, y);
    if y in FineDiff(cur, idx) {
      var i :| 0 <= i < |es| && es[i] == Some(y);
      assert FineEntry(cur[i], idx) == Some(y);
    }
  }

  /** With distinct distNames each reference object is indexed under its own distName. */
  lemma {:induction false} FineIndexAt(ref: seq<MO>, i: nat)
    requires i < |ref| && ref[i].dn != ""
    requires forall a, b :: 0 <= a < b < |ref| ==> ref[a].dn != ref[b].dn
    ensures ref[i].dn in FineIndex(ref) && FineIndex(ref)[ref[i].dn] == ref[i]
    decreases |ref|
  {
    var n := |ref| - 1;
    var m := FineIndex(ref[..n]);
    assert FineIndex(ref) == m[ref[n].dn := ref[n]] || (ref[n].dn == "" && FineIndex(ref) == m);
    if i < n {
      assert ref[..n][i] == ref[i];
      FineIndexAt(ref[..n], i);
    }
  }

  /** Committing the reference itself, when its distNames are present and distinct and none is a
      tombstone, yields no object. */
  lemma FineDiffOfReference(ref: seq<MO>)
    requires forall a, b :: 0 <= a < b < |ref| ==> ref[a].dn != ref[b].dn
    requires forall i :: 0 <= i < |ref| ==> ref[i].dn != "" && Lower(ref[i].op) != "delete"
    ensures FineDiff(ref, FineIndex(ref)) == []
  {
    var idx := FineIndex(ref);
    var es := FineEntries(ref, idx);
    forall i | 0 <= i < |es| ensures es[i].None? {
      FineIndexAt(ref, i);
      FineEntryCases(ref[i], idx);
    }
    SomesNone(es);
  }

  // ----- the extraction loops -----

  /** `ref_distnames`: the loop over the reference objects */
  method CollectRefDns(ref: seq<MO>) returns (dns: set<string>)
    ensures dns == RefDns(ref)
  {
    dns := {};
    var i := 0;
    while i < |ref|
      invariant 0 <= i <= |ref| && dns == RefDns(ref[..i])
    {
      assert ref[..i + 1][..i] == ref[..i];
      if ref[i].dn != "" {
        dns := dns + {ref[i].dn};
      }
      i := i + 1;
    }
    assert ref[..i] == ref;
  }

  /** `commit_diff`'s loop over the current objects */
  method ExtractCoarse(cur: seq<MO>, ref: seq<MO>) returns (out: seq<MO>)
    ensures out == CoarseDiff(cur, RefDns(ref))
  {
    var dns := CollectRefDns(ref);
    out := [];
    var i := 0;
    while i < |cur|
      invariant 0 <= i <= |cur| && out == CoarseDiff(cur[..i], dns)
    {
      assert cur[..i + 1][..i] == cur[..i];
      var mo := cur[i];
      if mo.op == "delete" {
        out := out + [mo];
      } else if mo.dn != "" && mo.dn !in dns {
        out := out + [mo.(op := "create")];
      }
      i := i + 1;
    }
    assert cur[..i] == cur;
  }

  /** `commit_diff_para`'s loop over the reference objects */
  method BuildFineIndex(ref: seq<MO>) returns (idx: map<string, MO>)
    ensures idx == FineIndex(ref)
  {
    idx := map[];
    var i := 0;
    while i < |ref|
      invariant 0 <= i <= |ref| && idx == FineIndex(ref[..i])
    {
      assert ref[..i + 1][..i] == ref[..i];
      if ref[i].dn != "" {
        idx := idx[ref[i].dn := ref[i]];
      }
      i := i + 1;
    }
    assert ref[..i] == ref;
  }

  /** `commit_diff_para`'s loop over the current objects */
  method ExtractFine(cur: seq<MO>, ref: seq<MO>) returns (out: seq<MO>)
    ensures out == FineDiff(cur, FineIndex(ref))
  {
    var idx := BuildFineIndex(ref);
    ghost var es := FineEntries(cur, idx);
    out := [];
    var i := 0;
    while i < |cur|
      invariant 0 <= i <= |cur| && out == Somes(es[..i])
    {
      assert es[..i + 1][..i] == es[..i];
      var e := FineEntry(cur[i], idx);
      assert es[i] == e;
      if e.Some? {
        out := out + [e.value];
      }
      i := i + 1;
    }
    assert es[..i] == es;
  }

  // ----- what a commit leaves in the session -----

  /** The server's answer to the XML upload */
  datatype Reply = Reply(success: bool, result: string)

  /** A commit's effect: the error it logs, the `cmd_status` it sets, the file it records as the
      last commit, and the document it writes and uploads. */
  datatype Effect = Effect(error: Option<string>, status: Option<bool>, file: Option<string>, written: Option<CmData>)

  const MsgNoTaskKey := "task_key is not set; run tgt-bts first."
  const MsgDiffNotAllowed := "commit-diff is not allowed in this mode."
  const MsgNoDict := "no translation dict."

  function MsgServerError(result: string): string { "[server error] " + result }

  /** The document, translated when a mode is given */
  function Translated(doc: CmData, dict: FormulaDict, translate: Option<CommitUtils.Mode>, showFloat: real -> string): CmData
  {
    if translate.Some? then CommitUtils.TranslatedTree(doc, dict, translate.value, showFloat) else doc
  }

  /** The upload's outcome: no error when the server accepted it. */
  function ServerError(reply: Reply): Option<string>
  {
    if reply.success then None else Some(MsgServerError(reply.result))
  }

  /** `do_commit_all`: without a task key nothing happens but the error; a translation without a
      catalog is refused; otherwise the whole tree is written (given a header when untranslated,
      never retagged) and `cmd_status` follows the server's answer. */
  function CommitAllSpec(taskKey: Option<string>, doc: CmData, dict: FormulaDict, translate: Option<CommitUtils.Mode>,
                         base: string, timestamp: string, reply: Reply, showFloat: real -> string): (e: Effect)
    ensures taskKey.None? ==> e == Effect(Some(MsgNoTaskKey), None, None, None)
    ensures taskKey.Some? && translate.Some? && dict == map[] ==> e == Effect(Some(MsgNoDict), None, None, None)
    ensures e.written.Some? <==> taskKey.Some? && (translate.None? || dict != map[])
    ensures e.written.Some? ==> e.status == Some(reply.success) && (e.error.None? <==> reply.success)
    ensures e.written.Some? ==> e.file == Some(CommitFileName("commit", base, timestamp, translate.Some?, taskKey.value))
    ensures e.written.Some? && translate.None? ==> e.written.value == doc.(hasHeader := true)
    ensures e.written.Some? && translate.Some? ==> e.written.value.hasHeader == doc.hasHeader && |e.written.value.mos| == |doc.mos|
  {
    if taskKey.None? then Effect(Some(MsgNoTaskKey), None, None, None)
    else if translate.Some? && dict == map[] then Effect(Some(MsgNoDict), None, None, None)
    else
      var written := if translate.Some? then CommitUtils.TranslatedTree(doc, dict, translate.value, showFloat)
                     else doc.(hasHeader := true);
      var file := CommitFileName("commit", base, timestamp, translate.Some?, taskKey.value);
      Effect(ServerError(reply), Some(reply.success), Some(file), Some(written))
  }

  /** The two diff extractions */
  datatype DiffKind = ByDistName | ByField

  function Extracted(kind: DiffKind, cur: seq<MO>, ref: seq<MO>): seq<MO>
  {
    match kind
    case ByDistName => CoarseDiff(cur, RefDns(ref))
    case ByField => FineDiff(cur, FineIndex(ref))
  }

  function DiffTag(kind: DiffKind): string
  {
    match kind
    case ByDistName => "cellcommit"
    case ByField => "cellcommit_para"
  }

  /** `do_commit_diff` / `do_commit_diff_para`: every refusal (no task key, diffs not allowed, an
      empty change set, a translation without a catalog) sets `cmd_status` False and writes
      nothing; otherwise a fresh document holding the change set is written and `cmd_status`
      is True exactly when the server accepts it. */
  function DiffSpec(kind: DiffKind, taskKey: Option<string>, allow: bool, cur: CmData, ref: CmData, dict: FormulaDict,
                    translate: Option<CommitUtils.Mode>, base: string, timestamp: string, reply: Reply,
                    showFloat: real -> string): (e: Effect)
    ensures e.status.Some?
    ensures e.status == Some(true) <==>
              taskKey.Some? && allow && Extracted(kind, cur.mos, ref.mos) != [] && (translate.None? || dict != map[]) && reply.success
    ensures e.written.Some? <==>
              taskKey.Some? && allow && Extracted(kind, cur.mos, ref.mos) != [] && (translate.None? || dict != map[])
    ensures e.written.None? ==> e.file.None?
    ensures e.written.Some? ==> e.file == Some(CommitFileName(DiffTag(kind), base, timestamp, translate.Some?, taskKey.value))
    ensures e.written.Some? && translate.None? ==> e.written.value == CmData(false, Extracted(kind, cur.mos, ref.mos))
    ensures e.written.Some? && translate.Some? ==>
              e.written.value == CommitUtils.TranslatedTree(CmData(false, Extracted(kind, cur.mos, ref.mos)), dict, translate.value, showFloat)
  {
    if taskKey.None? then Effect(Some(MsgNoTaskKey), Some(false), None, None)
    else if !allow then Effect(Some(MsgDiffNotAllowed), Some(false), None, None)
    else
      var out := Extracted(kind, cur.mos, ref.mos);
      if out == [] then Effect(None, Some(false), None, None)
      else if translate.Some? && dict == map[] then Effect(Some(MsgNoDict), Some(false), None, None)
      else
        var file := CommitFileName(DiffTag(kind), base, timestamp, translate.Some?, taskKey.value);
        Effect(ServerError(reply), Some(reply.success), Some(file), Some(Translated(CmData(false, out), dict, translate, showFloat)))
  }

  /** Diffing a tree against itself finds nothing to commit, so the commit is refused. */
  lemma DiffOfReferenceRefused(kind: DiffKind, taskKey: Option<string>, allow: bool, ref: CmData, dict: FormulaDict,
                               translate: Option<CommitUtils.Mode>, base: string, timestamp: string, reply: Reply,
                               showFloat: real -> string)
    requires forall a, b :: 0 <= a < b < |ref.mos| ==> ref.mos[a].dn != ref.mos[b].dn
    requires forall i :: 0 <= i < |ref.mos| ==> ref.mos[i].dn != "" && Lower(ref.mos[i].op) != "delete" && ref.mos[i].op != "delete"
    ensures var e := DiffSpec(kind, taskKey, allow, ref, ref, dict, translate, base, timestamp, reply, showFloat);
            e.status == Some(false) && e.written.None? && e.file.None?
  {
    if kind == ByDistName {
      CoarseDiffOfReference(ref.mos, |ref.mos|);
      assert ref.mos[..|ref.mos|] == ref.mos;
    } else {
      FineDiffOfReference(ref.mos);
    }
  }

  /** The script uploaded with a commit */
  function ScriptOf(e: Effect): seq<string>
  {
    if e.written.Some? then CommitUtils.RenderAll(CommitUtils.Script(e.written.value)) else []
  }

  /** The session after a commit's effect: the error logged, the last commit file recorded,
      `cmd_status` set. */
  predicate Applied(e: Effect, errors0: seq<string>, file0: Option<string>, cfg0: map<string, ClientConfig.Val>,
                    errors: seq<string>, file: Option<string>, cfg: map<string, ClientConfig.Val>)
  {
    && errors == errors0 + (if e.error.Some? then [ErrorLine(e.error.value)] else [])
    && file == (if e.file.Some? then e.file else file0)
    && cfg == (if e.status.Some? then cfg0["cmd_status" := ClientConfig.Flag(e.status.value)] else cfg0)
  }

  method ApplyEffect(s: CliSession, e: Effect)
    modifies s`errors, s`lastCommitFile, s.config
    ensures Applied(e, old(s.errors), old(s.lastCommitFile), old(s.config.config), s.errors, s.lastCommitFile, s.config.config)
  {
    if e.status.Some? {
      var ok := s.config.Set("cmd_status", ClientConfig.Flag(e.status.value));
    }
    if e.error.Some? {
      s.PerrorM(e.error.value);
    }
    if e.file.Some? {
      s.lastCommitFile := e.file;
    }
  }

  /** `do_commit_all` on the session; `timestamp` and `reply` stand for the clock and the server.
      Without translation the header is inserted into the live tree itself, which keeps it. */
  method CommitAll(s: CliSession, translate: Option<CommitUtils.Mode>, timestamp: string, reply: Reply, showFloat: real -> string)
    returns (script: seq<string>)
    modifies s`errors, s`lastCommitFile, s.config, s`xml
    ensures s.xml == (if s.taskKey.Some? && translate.None? then old(s.xml).(hasHeader := true) else old(s.xml))
    ensures var e := CommitAllSpec(s.taskKey, old(s.xml), s.paramDict, translate,
                                   BaseName(ClientConfig.Lookup(old(s.config.config), "reference_config"), s.btsId),
                                   timestamp, reply, showFloat);
            Applied(e, old(s.errors), old(s.lastCommitFile), old(s.config.config), s.errors, s.lastCommitFile, s.config.config)
            && script == ScriptOf(e)
  {
    if s.taskKey.None? {
      ApplyEffect(s, Effect(Some(MsgNoTaskKey), None, None, None));
      return [];
    }
    var doc := s.xml;
    if translate.Some? {
      if s.paramDict == map[] {
        ApplyEffect(s, Effect(Some(MsgNoDict), None, None, None));
        return [];
      }
      doc := CommitUtils.TranslateTree(doc, s.paramDict, translate.value, showFloat);
    } else {
      s.xml := s.xml.(hasHeader := true);
      doc := s.xml;
    }
    var reference := s.config.Get("reference_config");
    var file := CommitFileName("commit", BaseName(reference, s.btsId), timestamp, translate.Some?, s.taskKey.value);
    script := CommitUtils.ScriptCommands(doc);
    ApplyEffect(s, Effect(ServerError(reply), Some(reply.success), Some(file), Some(doc)));
  }

  /** `do_commit_diff` (by distName) and `do_commit_diff_para` (by field) on the session */
  method CommitDiff(s: CliSession, kind: DiffKind, translate: Option<CommitUtils.Mode>, timestamp: string, reply: Reply,
                    showFloat: real -> string)
    returns (script: seq<string>)
    modifies s`errors, s`lastCommitFile, s.config
    ensures var e := DiffSpec(kind, s.taskKey, s.allowCommitDiff, s.xml, s.refTree, s.paramDict, translate,
                              BaseName(ClientConfig.Lookup(old(s.config.config), "reference_config"), s.btsId),
                              timestamp, reply, showFloat);
            Applied(e, old(s.errors), old(s.lastCommitFile), old(s.config.config), s.errors, s.lastCommitFile, s.config.config)
            && script == ScriptOf(e)
  {
    var reference := s.config.Get("reference_config");
    var e := DiffEffect(kind, s.taskKey, s.allowCommitDiff, s.xml, s.refTree, s.paramDict, translate,
                        BaseName(reference, s.btsId), timestamp, reply, showFloat);
    script := [];
    if e.written.Some? {
      script := CommitUtils.ScriptCommands(e.written.value);
    }
    ApplyEffect(s, e);
  }

  /** The effect of a commit diff, computed from the session's values. */
  method DiffEffect(kind: DiffKind, taskKey: Option<string>, allow: bool, cur: CmData, ref: CmData, dict: FormulaDict,
                    translate: Option<CommitUtils.Mode>, base: string, timestamp: string, reply: Reply,
                    showFloat: real -> string)
    returns (e: Effect)
    ensures e == DiffSpec(kind, taskKey, allow, cur, ref, dict, translate, base, timestamp, reply, showFloat)
  {
    if taskKey.None? {
      return Effect(Some(MsgNoTaskKey), Some(false), None, None);
    }
    if !allow {
      return Effect(Some(MsgDiffNotAllowed), Some(false), None, None);
    }
    var out;
    if kind == ByDistName {
      out := ExtractCoarse(cur.mos, ref.mos);
    } else {
      out := ExtractFine(cur.mos, ref.mos);
    }
    if out == [] {
      return Effect(None, Some(false), None, None);
    }
    if translate.Some? && dict == map[] {
      return Effect(Some(MsgNoDict), Some(false), None, None);
    }
    var doc := CmData(false, out);
    if translate.Some? {
      doc := CommitUtils.TranslateTree(doc, dict, translate.value, showFloat);
    }
    var file := CommitFileName(DiffTag(kind), base, timestamp, translate.Some?, taskKey.value);
    e := Effect(ServerError(reply), Some(reply.success), Some(file), Some(doc));
  }

  /** The effect of `commit` once routed */
  function RoutedEffect(route: (Route, CommitUtils.Mode), taskKey: Option<string>, allow: bool, cur: CmData, ref: CmData,
                        dict: FormulaDict, base: string, timestamp: string, reply: Reply, showFloat: real -> string): Effect
  {
    match route.0
    case ToCommitAll => CommitAllSpec(taskKey, cur, dict, Some(route.1), base, timestamp, reply, showFloat)
    case ToCommitDiff => DiffSpec(ByDistName, taskKey, allow, cur, ref, dict, Some(route.1), base, timestamp, reply, showFloat)
    case ToCommitDiffPara => DiffSpec(ByField, taskKey, allow, cur, ref, dict, Some(route.1), base, timestamp, reply, showFloat)
  }

  /** `do_commit`: hands over to the routed command; an unrouted mode changes nothing. */
  method Commit(s: CliSession, timestamp: string, reply: Reply, showFloat: real -> string) returns (script: seq<string>)
    modifies s`errors, s`lastCommitFile, s.config, s`xml
    ensures s.xml == old(s.xml)
    ensures CommitRoute(s.mode, s.ratType).None? ==>
              s.errors == old(s.errors) && s.lastCommitFile == old(s.lastCommitFile)
              && s.config.config == old(s.config.config) && script == []
    ensures CommitRoute(s.mode, s.ratType).Some? ==>
              var e := RoutedEffect(CommitRoute(s.mode, s.ratType).value, s.taskKey, s.allowCommitDiff, s.xml, s.refTree,
                                    s.paramDict, BaseName(ClientConfig.Lookup(old(s.config.config), "reference_config"), s.btsId),
                                    timestamp, reply, showFloat);
              Applied(e, old(s.errors), old(s.lastCommitFile), old(s.config.config), s.errors, s.lastCommitFile, s.config.config)
              && script == ScriptOf(e)
  {
    var route := CommitRoute(s.mode, s.ratType);
    if route.None? {
      return [];
    }
    match route.value.0 {
      case ToCommitAll => script := CommitAll(s, Some(route.value.1), timestamp, reply, showFloat);
      case ToCommitDiff => script := CommitDiff(s, ByDistName, Some(route.value.1), timestamp, reply, showFloat);
      case ToCommitDiffPara => script := CommitDiff(s, ByField, Some(route.value.1), timestamp, reply, showFloat);
    }
  }
}
