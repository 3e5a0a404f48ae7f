// The navigation and structural commands of the tree editor (cli/common/mixins/tree_commands.py):
// the command line fallback `default`, entering or creating an object (`_enter_or_create_mo`,
// `_create_managed_object`), leaving it (`do_exit`, `do_exit_all`), removing objects and
// parameters (`do_no_mo`, `do_no_mo_scf`, `do_no_pa`), filling in declared parameters
// (`do_add_auto_pa`), renaming the current object (`do_chg_mo_id`), and the small list and
// port helpers.

module TreeNav {
  import opened Wrappers
  import opened Text
  import opened Tree
  import Schema
  import opened Session
  import opened TreeEdit

  const MsgEmptyCommand := "empty command"
  const MsgListUsage := "usage: list <listName> <index> <key> <value>"
  const MsgUnknownCommand := "unrecognised command"
  const MsgRootFirst := "set MRBTS <ID> first"
  const MsgNoFrame := "no current MO"
  const MsgParentUnknown := "parent MO not in catalog"
  const MsgChildNotAllowed := "MO not allowed below the parent"
  const MsgIdNotNumber := "MO id is not a number"
  const MsgIdOutOfRange := "MO id outside the range or step"
  const MsgNoTrmod := "ETHLK needs a TRMOD first"
  const MsgNoMoUsage := "usage: no-mo <MO_CLASS> <ID>"
  const MsgNoBts := "BTS id not set"
  const MsgInsideTarget := "current position lies inside the target"
  const MsgNoTarget := "no MO matches the target"
  const MsgNoPaUsage := "usage: no-pa <param>"
  const MsgNoMo := "no current MO"
  const MsgNoXmlMo := "current MO not in the tree"
  const MsgNotCatalogued := "MO not in the catalog"
  const MsgChgUsage := "usage: chg-mo-id <new id>"
  const MsgIdDigits := "id must be digits"
  const MsgNoPosition := "no current position"
  const MsgNoOldId := "current id not found in the path"

  // ----- creating an object -----

  /** `_resolve_version`: the root carries the SBTS release, every other object the EQM one. */
  function ResolveVersion(moVersion: string, cls: string): (r: string)
    ensures StartsWith(r, (if cls == "MRBTS" then "SBTS" else "EQM") + Upper(moVersion))
    ensures EndsWith(r, "_100")
  {
    var base := Upper(moVersion);
    var prefix := if cls == "MRBTS" then "SBTS" else "EQM";
    var build := if cls == "MRBTS" then (if base == "24R2" then "2402" else "2502")
                 else (if base == "24R2" then "2322" else "2522");
    var r := prefix + base + ("FSM3_" + build + "_100");
    assert r[..|prefix + base|] == prefix + base;
    assert r[|r| - 4..] == "_100";
    r
  }

  /** A DU10 4G station cannot take an ETHLK before some TRMOD was created. */
  predicate EthlkBlocked(n: Nav, c: Ctx, cls: string)
  {
    c.duType == Some("du10") && Upper(c.ratType) == "4G" && cls == "ETHLK" && n.lastTrmodId.None?
  }

  /** On 5G with APHA radios an RMOD is written as an ASIRMOD. */
  function ActualClass(c: Ctx, cls: string): string
  {
    if cls == "RMOD" && Upper(c.ratType) == "5G" && c.ruType == Some("APHA") then "ASIRMOD" else cls
  }

  /** The `managedObject` element `_create_managed_object` appends for the current path. */
  function NewMo(n: Nav, c: Ctx, cls: string): MO
  {
    var actual := ActualClass(c, cls);
    var cv := if cls == "MRBTS" then "com.nokia.srbts:MRBTS" else ClassValue(c.ratType, n.matchTail, cls);
    MO(ReplaceAll(cv, ":" + cls, ":" + actual), ReplaceAll(n.matchTail, "/" + cls + "-", "/" + actual + "-"),
       ResolveVersion(c.moVersion, cls), "create", [], [])
  }

  /** The tree with one more object at the end */
  function Grow(d: CmData, mo: MO): CmData
  {
    d.(mos := d.mos + [mo])
  }

  /** The ETHLK hook: the link points at the last TRMOD on a DU10 4G station, at the SMOD on a DU20. */
  function LinkEthlk(n: Nav, c: Ctx): (r: Step)
    ensures SamePlace(n, r.st) && r.st.moClass == n.moClass && r.st.lastTrmodId == n.lastTrmodId
    ensures SameSkeleton(n.doc, r.st.doc)
    ensures c.duType.None? ==> r == Step(n, Raised("AttributeError"))
  {
    if c.duType.None? then Step(n, Raised("AttributeError"))
    else if Upper(c.duType.value) == "DU10" && Upper(c.ratType) == "4G" then
      if n.lastTrmodId.None? then Step(n, Raised("AttributeError"))
      else SetParamSpec(n, c, "modDN", "MRBTS-" + Show(n.btsId) + "/EQM-1/APEQM-1/CABINET-1/TRMOD-" + n.lastTrmodId.value)
    else if Upper(c.duType.value) == "DU20" then
      SetParamSpec(n, c, "modDN", "MRBTS-" + Show(n.btsId) + "/EQM-1/APEQM-1/CABINET-1/SMOD-1")
    else Step(n, Done)
  }

  /** `_create_managed_object(cls, id)`: one "create" object is appended for the current path and
      becomes current; then the rulebook defaults and the TRMOD and ETHLK hooks run. */
  function CreateSpec(n: Nav, c: Ctx, cls: string, id: string): (r: Step)
    ensures SamePlace(n, r.st)
    ensures EthlkBlocked(n, c, cls) ==> r == Step(Perror(n, MsgNoTrmod), Done)
    ensures !EthlkBlocked(n, c, cls) ==> SameSkeleton(Grow(n.doc, NewMo(n, c, cls)), r.st.doc)
    ensures !EthlkBlocked(n, c, cls) ==> r.st.moClass == Some(cls)
    ensures !EthlkBlocked(n, c, cls) && cls == "TRMOD" && r.out.Done? ==> r.st.lastTrmodId == Some(id)
  {
    if EthlkBlocked(n, c, cls) then Step(Perror(n, MsgNoTrmod), Done)
    else
      var mo := NewMo(n, c, cls);
      CreateHooks(n.(doc := Grow(n.doc, mo), moClass := Some(cls), inputs := n.inputs + [MoCreate(mo.dn)]), c, cls, id)
  }

  /** What follows the creation of the object: the rulebook defaults, then the TRMOD and ETHLK
      hooks. */
  function CreateHooks(n1: Nav, c: Ctx, cls: string, id: string): Step
  {
    var st := ApplyRulebook(n1, c, ActualClass(c, cls), id);
    if st.out.Raised? then st
    else
      var n2 := if cls == "TRMOD" then st.st.(lastTrmodId := Some(id)) else st.st;
      if cls == "ETHLK" then LinkEthlk(n2, c) else Step(n2, Done)
  }

  /** Move to the object of the current path, or create it. */
  function MoveOrCreate(n: Nav, c: Ctx, cls: string, id: string): (r: Step)
    ensures SamePlace(n, r.st)
    ensures HasDn(n.doc.mos, n.matchTail) ==> r == Step(n.(moClass := Some(cls)), Done)
    ensures !HasDn(n.doc.mos, n.matchTail) ==> r == CreateSpec(n, c, cls, id)
  {
    if HasDn(n.doc.mos, n.matchTail) then Step(n.(moClass := Some(cls)), Done) else CreateSpec(n, c, cls, id)
  }

  // ----- entering an object -----

  /** The verdict of the checks before descending */
  datatype Verdict = Pass | Reject(msg: string) | Crash(kind: string)

  /** `^(\d+)\.\.\.(\d+), step (\d+)$` of the id parameter `<cls lower-cased>Id`, when it has one */
  function IdRangeOf(sch: Schema.Dict, cls: string): Option<Schema.IdRange>
  {
    if cls !in sch then None
    else
      match Schema.Lookup(sch[cls].params, Lower(cls) + "Id")
      case Some(Scalar(_, _, _, Some(t))) => Schema.ParseRange(t)
      case _ => None
  }

  /** An id value a range admits */
  predicate InRange(rg: Schema.IdRange, v: int)
  {
    rg.min <= v <= rg.max && rg.step > 0 && (v - rg.min) % rg.step == 0
  }

  /** The range check of a new id. TOPP takes temporary ids and is never checked; a step of 0
      makes the modulo raise. */
  function RangeVerdict(sch: Schema.Dict, cls: string, id: string): (r: Verdict)
    ensures cls == "TOPP" || IdRangeOf(sch, cls).None? ==> r == Pass
    ensures cls != "TOPP" && IdRangeOf(sch, cls).Some? ==>
              (r == Pass <==> ParseInt(id).Some? && InRange(IdRangeOf(sch, cls).value, ParseInt(id).value))
    ensures r.Crash? ==> r.kind == "ZeroDivisionError" && IdRangeOf(sch, cls).value.step == 0
  {
    if cls == "TOPP" then Pass
    else
      match IdRangeOf(sch, cls)
      case None => Pass
      case Some(rg) =>
        match ParseInt(id)
        case None => Reject(MsgIdNotNumber)
        case Some(v) =>
          if v < rg.min || v > rg.max then Reject(MsgIdOutOfRange)
          else if rg.step == 0 then Crash("ZeroDivisionError")
          else if (v - rg.min) % rg.step != 0 then Reject(MsgIdOutOfRange)
          else Pass
  }

  /** Every id in the range, written in decimal, passes the check. */
  lemma RangeAdmitsWrittenIds(sch: Schema.Dict, cls: string, v: int)
    requires IdRangeOf(sch, cls).Some? && InRange(IdRangeOf(sch, cls).value, v)
    ensures RangeVerdict(sch, cls, IntToString(v)) == Pass
  {
    IntRoundTrip(v);
  }

  /** The placeholder id 000 of LNBTS and NRBTS stands for the station's own id. */
  function EnterId(n: Nav, cls: string, id: string): string
  {
    if id == "000" && Truthy(n.btsId) && (cls == "LNBTS" || cls == "NRBTS") then n.btsId.value else id
  }

  /** The checks of `_enter_or_create_mo` below the root, in order. A catalog that was never
      loaded makes the first membership test raise. */
  function EnterVerdict(n: Nav, c: Ctx, cls: string, id: string): Verdict
  {
    if n.stack == [] then Reject(MsgNoFrame)
    else if c.schema.None? then Crash("TypeError")
    else if !KnownClass(n, c.schema.value) then Reject(MsgParentUnknown)
    else if cls !in c.schema.value[n.moClass.value].children then Reject(MsgChildNotAllowed)
    else RangeVerdict(c.schema.value, cls, EnterId(n, cls, id))
  }

  /** One level down: the path and the prompt grow by the new object. */
  function Descend(n: Nav, cls: string, id: string): Nav
  {
    n.(matchTail := n.matchTail + "/" + cls + "-" + id, stack := n.stack + [Lower(cls) + "(" + id + ")"])
  }

  /** `_enter_or_create_mo(cls, id)` */
  function EnterOrCreateSpec(n: Nav, c: Ctx, cls: string, id: string): (r: Step)
    ensures !Truthy(n.btsId) && cls != "MRBTS" ==> r == Step(Perror(n, MsgRootFirst), Done)
    ensures !Truthy(n.btsId) && cls == "MRBTS" ==>
              r.st.btsId == Some(id) && r.st.matchTail == "MRBTS-" + id && r.st.stack == ["MRBTS(" + id + ")"]
    ensures Truthy(n.btsId) && EnterVerdict(n, c, cls, id).Reject? ==>
              r == Step(Perror(n, EnterVerdict(n, c, cls, id).msg), Done)
    ensures Truthy(n.btsId) && EnterVerdict(n, c, cls, id).Crash? ==>
              r == Step(n, Raised(EnterVerdict(n, c, cls, id).kind))
    ensures Truthy(n.btsId) && EnterVerdict(n, c, cls, id).Pass? ==>
              SamePlace(r.st, Descend(n, cls, EnterId(n, cls, id)))
  {
    if !Truthy(n.btsId) then EnterFirst(n, c, cls, id) else EnterChild(n, c, cls, id)
  }

  /** With no station yet, only MRBTS can be entered, and it becomes the root. */
  function EnterFirst(n: Nav, c: Ctx, cls: string, id: string): Step
  {
    if cls == "MRBTS" then
      MoveOrCreate(n.(btsId := Some(id), matchTail := "MRBTS-" + id, stack := ["MRBTS(" + id + ")"]), c, cls, id)
    else Step(Perror(n, MsgRootFirst), Done)
  }

  /** Below the root: the checks, then the descent into the child. */
  function EnterChild(n: Nav, c: Ctx, cls: string, id: string): Step
  {
    match EnterVerdict(n, c, cls, id)
    case Reject(m) => Step(Perror(n, m), Done)
    case Crash(k) => Step(n, Raised(k))
    case Pass =>
      var id1 := EnterId(n, cls, id);
      MoveOrCreate(Descend(n, cls, id1), c, cls, id1)
  }

  /** After a successful descent the tree holds an object at the new path, unless ETHLK was
      refused or the RMOD was renamed to ASIRMOD. */
  lemma EnterLeavesObject(n: Nav, c: Ctx, cls: string, id: string)
    requires Truthy(n.btsId) && EnterVerdict(n, c, cls, id).Pass?
    requires !EthlkBlocked(Descend(n, cls, EnterId(n, cls, id)), c, cls) && ActualClass(c, cls) == cls
    ensures var r := EnterOrCreateSpec(n, c, cls, id);
            HasDn(r.st.doc.mos, r.st.matchTail) && r.st.moClass == Some(cls)
  {
    var d := Descend(n, cls, EnterId(n, cls, id));
    var r := EnterOrCreateSpec(n, c, cls, id);
    assert r == MoveOrCreate(d, c, cls, EnterId(n, cls, id));
    if !HasDn(d.doc.mos, d.matchTail) {
      ReplaceSelf(d.matchTail, "/" + cls + "-");
      var mo := NewMo(d, c, cls);
      assert mo.dn == d.matchTail;
      var k := |d.doc.mos|;
      assert Identity(Grow(d.doc, mo).mos[k]) == Identity(r.st.doc.mos[k]);
      assert r.st.doc.mos[k].dn == r.st.matchTail;
    }
  }

  // ----- leaving an object -----

  /** How `do_exit` ends: one level up, the loop told to stop, or the stop cancelled. */
  datatype ExitOutcome = Popped | Quit | Stayed

  /** The class of a prompt frame `cls(id)`; the frame "cfg-bts" stands for MRBTS. */
  function FrameClass(frame: string): string
  {
    var raw := Upper(Split(frame, "(")[0]);
    if raw == "CFG-BTS" then "MRBTS" else raw
  }

  /** `do_exit` with `confirm` the answer to the question asked at the last level. */
  function ExitSpec(n: Nav, confirm: string): (r: (Nav, ExitOutcome))
    ensures r.1 != Popped ==> r.0 == n
    ensures r.1 == Popped ==> |n.stack| >= 2 && r.0.stack == n.stack[..|n.stack| - 1]
    ensures r.1 == Popped ==> r.0.btsId == n.btsId && r.0.doc == n.doc && r.0.inputs == n.inputs
    ensures r.1 == Popped ==> Segments(r.0.matchTail) == Segments(n.matchTail)[..|Segments(n.matchTail)| - 1]
                              || |Segments(n.matchTail)| == 1
    ensures r.1 == Stayed ==> |n.stack| == 1 && Lower(Strip(confirm)) != "yes"
  {
    if n.matchTail == "" || IsBlank(n.matchTail) || n.stack == [] then (n, Quit)
    else if |n.stack| == 1 then (n, if Lower(Strip(confirm)) == "yes" then Quit else Stayed)
    else
      var stack := n.stack[..|n.stack| - 1];
      var segs := Segments(n.matchTail);
      var tail := Join(segs[..|segs| - 1], "/");
      SplitJoinFree(segs[..|segs| - 1], n.matchTail);
      (n.(stack := stack, matchTail := tail, moClass := Some(FrameClass(stack[|stack| - 1]))), Popped)
  }

  /** Joining the first pieces of a split gives text whose split is exactly those pieces. */
  lemma SplitJoinFree(ps: seq<string>, s: string)
    requires |Segments(s)| >= 1 && ps == Segments(s)[..|Segments(s)| - 1]
    ensures ps == [] || Segments(Join(ps, "/")) == ps
  {
    SplitPiecesFree(s, "/");
    if ps != [] {
      forall k | 0 <= k < |ps| ensures '/' !in ps[k] {
        FreeOfChar(ps[k], '/');
      }
      SplitOfJoin(ps, '/');
    }
  }

  /** A piece that does not contain the one-character separator string is free of that character. */
  lemma FreeOfChar(s: string, c: char)
    requires !Contains(s, [c])
    ensures c !in s
  {
    forall i | 0 <= i < |s| ensures s[i] != c {
      assert s[i..i + 1] == [s[i]];
      assert !OccursAt(s, [c], i);
    }
  }

  /** Leaving a frame that was pushed on top of `n` with a separator-free segment `x` gives
      back `n`'s place. */
  lemma ExitPushed(n: Nav, m: Nav, x: string, confirm: string)
    requires n.stack != [] && '/' !in x
    requires m.btsId == n.btsId && m.matchTail == n.matchTail + "/" + x
    requires |m.stack| == |n.stack| + 1 && m.stack[..|n.stack|] == n.stack
    ensures ExitSpec(m, confirm).1 == Popped && SamePlace(ExitSpec(m, confirm).0, n)
  {
    PushedPath(n.matchTail, x);
    var segs := Segments(m.matchTail);
    assert ExitSpec(m, confirm).0.matchTail == Join(segs[..|segs| - 1], "/");
  }

  /** A path grown by one separator-free segment is not blank, and dropping its last segment
      gives back the path. */
  lemma PushedPath(t: string, x: string)
    requires '/' !in x
    ensures !IsBlank(t + "/" + x)
    ensures var segs := Segments(t + "/" + x); Join(segs[..|segs| - 1], "/") == t
  {
    var segs := Segments(t + "/" + x);
    SplitSnoc(t, '/', x);
    assert segs[..|segs| - 1] == Segments(t);
    JoinSplit(t, "/");
    assert (t + "/" + x)[|t|] == '/';
    NotBlank(t + "/" + x, |t|);
  }

  /** Entering and then leaving puts the editor back where it was. */
  lemma EnterThenExit(n: Nav, c: Ctx, cls: string, id: string, confirm: string)
    requires Truthy(n.btsId) && EnterVerdict(n, c, cls, id).Pass?
    requires '/' !in cls + "-" + EnterId(n, cls, id)
    ensures var e := ExitSpec(EnterOrCreateSpec(n, c, cls, id).st, confirm);
            e.1 == Popped && SamePlace(e.0, n)
  {
    DescendThenExit(n, EnterOrCreateSpec(n, c, cls, id).st, cls, EnterId(n, cls, id), confirm);
  }

  /** Leaving a place that descends from `n` by one object gives back `n`'s place. */
  lemma DescendThenExit(n: Nav, m: Nav, cls: string, id: string, confirm: string)
    requires n.stack != [] && '/' !in cls + "-" + id
    requires SamePlace(m, Descend(n, cls, id))
    ensures ExitSpec(m, confirm).1 == Popped && SamePlace(ExitSpec(m, confirm).0, n)
  {
    var x := cls + "-" + id;
    assert m.matchTail == n.matchTail + "/" + x;
    ExitPushed(n, m, x, confirm);
  }

  /** `do_exit_all`: exit until one frame is left. An exit that does not pop (a blank path)
      leaves the Python loop running forever; that is None here. */
  function ExitAllSpec(n: Nav): (r: Option<Nav>)
    ensures r.Some? ==> |r.value.stack| <= 1 && r.value.btsId == n.btsId && r.value.doc == n.doc
    ensures r.Some? && n.stack != [] ==> r.value.stack == n.stack[..1]
    decreases |n.stack|
  {
    if |n.stack| <= 1 then Some(n)
    else
      var (m, o) := ExitSpec(n, "");
      if o != Popped then None else ExitAllSpec(m)
  }

  // ----- the command line fallback -----

  /** What `default` makes of a command line */
  datatype Route =
    | EmptyLine
    | ListUsage
    | ListWrite(name: string, index: string, key: string, value: string)
    | EnterMo(cls: string, id: string)
    | SetParam(key: string, value: string)
    | Unrecognised

  /** The routing of the already split tokens: "list" first, then an upper-case (or "tgt-bts")
      object name with an id, then a parameter and its value. */
  function RouteOf(tokens: seq<string>): Route
  {
    if tokens == [] then EmptyLine
    else if Lower(tokens[0]) == "list" then
      if |tokens| != 5 then ListUsage else ListWrite(tokens[1], tokens[2], tokens[3], tokens[4])
    else if |tokens| == 2 && (IsUpperStr(ReplaceAll(tokens[0], "_", "")) || tokens[0] == "tgt-bts") then
      EnterMo(if tokens[0] == "tgt-bts" then "MRBTS" else tokens[0], tokens[1])
    else if |tokens| == 2 then SetParam(tokens[0], tokens[1])
    else Unrecognised
  }

  /** `default`: the command the tokens route to. */
  function DefaultSpec(n: Nav, c: Ctx, tokens: seq<string>): Step
  {
    match RouteOf(tokens)
    case EmptyLine => Step(Perror(n, MsgEmptyCommand), Done)
    case ListUsage => Step(Perror(n, MsgListUsage), Done)
    case ListWrite(name, index, key, value) => SetListSpec(n, c, name, index, [(key, value)])
    case EnterMo(cls, id) => EnterOrCreateSpec(n, c, cls, id)
    case SetParam(key, value) => SetParamSpec(n, c, key, value)
    case Unrecognised => Step(Perror(n, MsgUnknownCommand), Done)
  }

  /** A name without underscores is left alone by the underscore removal. */
  lemma NoUnderscore(a: string)
    requires '_' !in a
    ensures ReplaceAll(a, "_", "") == a
  {
    forall i | 0 <= i < |a| ensures !OccursAt(a, "_", i) {
      assert a[i..i + 1] == [a[i]];
    }
    ReplaceAbsent(a, "_", "");
  }

  /** Two tokens whose first is an upper-case name enter (or create) that object. */
  lemma DefaultEnters(a: string, b: string)
    requires '_' !in a && Lower(a) != "list" && IsUpperStr(a)
    ensures RouteOf([a, b]) == EnterMo(a, b)
  {
    NoUnderscore(a);
    assert IsUpperStr(ReplaceAll([a, b][0], "_", ""));
  }

  /** One lower-case letter makes a name not upper case. */
  lemma NotUpper(a: string, i: nat)
    requires i < |a| && IsLowerChar(a[i])
    ensures !IsUpperStr(a)
  {
  }

  /** Two tokens whose first has a lower-case letter set that parameter. */
  lemma DefaultSetsParam(a: string, b: string, i: nat)
    requires '_' !in a && Lower(a) != "list" && a != "tgt-bts"
    requires i < |a| && IsLowerChar(a[i])
    ensures RouteOf([a, b]) == SetParam(a, b)
  {
    NoUnderscore(a);
    NotUpper(a, i);
    var t := [a, b];
    assert t[0] == a && t[1] == b;
  }

  // ----- removing objects and parameters -----

  /** `do_no_mo` as written: the check of the current position reads `cur_mo_dist`, an attribute
      the session never sets, so every well-formed request on a station raises. */
  function NoMoAsWritten(n: Nav, tokens: seq<string>): (r: Step)
    ensures r.st.doc == n.doc
    ensures |tokens| == 2 && Truthy(n.btsId) ==> r == Step(n, Raised("AttributeError"))
  {
    if |tokens| != 2 then Step(Perror(n, MsgNoMoUsage), Done)
    else if !Truthy(n.btsId) then Step(Perror(n, MsgNoBts), Done)
    else Step(n, Raised("AttributeError"))
  }

  /** An object `no-mo` removes: the key appears after a "/" in its distName, or ends it. */
  predicate NoMoTarget(dn: string, key: string)
  {
    Contains(dn, "/" + key) || EndsWith(dn, key)
  }

  predicate HasNoMoTarget(mos: seq<MO>, key: string)
  {
    exists j :: 0 <= j < |mos| && NoMoTarget(mos[j].dn, key)
  }

  /** The objects that are not targets, in their order */
  function WithoutTargets(mos: seq<MO>, key: string): (r: seq<MO>)
    ensures forall mo :: mo in r <==> mo in mos && !NoMoTarget(mo.dn, key)
    ensures HasNoMoTarget(mos, key) <==> |r| < |mos|
    ensures |r| <= |mos|
    decreases |mos|
  {
    if mos == [] then []
    else
      var rest := WithoutTargets(mos[1..], key);
      assert HasNoMoTarget(mos, key) <==> NoMoTarget(mos[0].dn, key) || HasNoMoTarget(mos[1..], key) by {
        if HasNoMoTarget(mos, key) && !NoMoTarget(mos[0].dn, key) {
          var j :| 0 <= j < |mos| && NoMoTarget(mos[j].dn, key);
          assert mos[1..][j - 1] == mos[j];
        }
        if HasNoMoTarget(mos[1..], key) {
          var j :| 0 <= j < |mos[1..]| && NoMoTarget(mos[1..][j].dn, key);
          assert mos[j + 1] == mos[1..][j];
        }
      }
      assert forall mo :: mo in mos <==> mo == mos[0] || mo in mos[1..];
      if NoMoTarget(mos[0].dn, key) then rest else [mos[0]] + rest
  }

  /** The removal is an order-preserving filter: it distributes over concatenation. With
      `WithoutTargetsOne` this fixes the result, order and repetitions included. */
  lemma {:induction false} WithoutTargetsAppend(a: seq<MO>, b: seq<MO>, key: string)
    ensures WithoutTargets(a + b, key) == WithoutTargets(a, key) + WithoutTargets(b, key)
    decreases |a|
  {
    if a == [] {
      assert a + b == b;
    } else {
      var c := a + b;
      assert c[0] == a[0];
      assert c[1..] == a[1..] + b;
      WithoutTargetsAppend(a[1..], b, key);
      var h := if NoMoTarget(a[0].dn, key) then [] else [a[0]];
      WithoutTargetsCons(c, key);
      WithoutTargetsCons(a, key);
      AppendAssoc(h, WithoutTargets(a[1..], key), WithoutTargets(b, key));
    }
  }

  lemma WithoutTargetsCons(mos: seq<MO>, key: string)
    requires mos != []
    ensures WithoutTargets(mos, key)
            == (if NoMoTarget(mos[0].dn, key) then [] else [mos[0]]) + WithoutTargets(mos[1..], key)
  {
  }

  lemma WithoutTargetsOne(mo: MO, key: string)
    ensures WithoutTargets([mo], key) == (if NoMoTarget(mo.dn, key) then [] else [mo])
  {
    assert [mo][1..] == [];
  }

  /** `do_no_mo` as evidently intended: the current position is the current path. */
  function NoMoSpec(n: Nav, tokens: seq<string>): (r: Step)
    ensures r.out.Done? && SamePlace(n, r.st) && r.st.moClass == n.moClass
    ensures r.st.doc.hasHeader == n.doc.hasHeader
    ensures forall mo :: mo in r.st.doc.mos ==> mo in n.doc.mos
    ensures r.st.doc != n.doc ==> r.st.errors == n.errors && |r.st.doc.mos| < |n.doc.mos|
  {
    if |tokens| != 2 then Step(Perror(n, MsgNoMoUsage), Done)
    else if !Truthy(n.btsId) then Step(Perror(n, MsgNoBts), Done)
    else
      var key := tokens[0] + "-" + tokens[1];
      if Contains(n.matchTail, key) then Step(Perror(n, MsgInsideTarget), Done)
      else if !HasNoMoTarget(n.doc.mos, key) then Step(Perror(n, MsgNoTarget), Done)
      else Step(n.(doc := n.doc.(mos := WithoutTargets(n.doc.mos, key))), Done)
  }

  /** A key inside a text that holds it after "/" or at its end */
  lemma TargetContainsKey(dn: string, key: string)
    ensures NoMoTarget(dn, key) ==> Contains(dn, key)
  {
    if Contains(dn, "/" + key) {
      var i :| 0 <= i <= |dn| && OccursAt(dn, "/" + key, i);
      assert dn[i + 1..i + 1 + |key|] == ("/" + key)[1..];
      assert OccursAt(dn, key, i + 1);
    } else if EndsWith(dn, key) {
      assert OccursAt(dn, key, |dn| - |key|);
    }
  }

  /** Removal never takes the object the editor stands on, and takes every target. */
  lemma NoMoKeepsCurrent(n: Nav, tokens: seq<string>)
    requires |tokens| == 2 && HasDn(n.doc.mos, n.matchTail)
    ensures HasDn(NoMoSpec(n, tokens).st.doc.mos, n.matchTail)
    ensures var m := NoMoSpec(n, tokens).st.doc.mos;
            forall j :: 0 <= j < |m| ==> !NoMoTarget(m[j].dn, tokens[0] + "-" + tokens[1]) || m == n.doc.mos
  {
    var key := tokens[0] + "-" + tokens[1];
    var m := NoMoSpec(n, tokens).st.doc.mos;
    if m != n.doc.mos {
      TargetContainsKey(n.matchTail, key);
      var i :| 0 <= i < |n.doc.mos| && n.doc.mos[i].dn == n.matchTail;
      assert n.doc.mos[i] in m;
      var k :| 0 <= k < |m| && m[k] == n.doc.mos[i];
      forall j | 0 <= j < |m| ensures !NoMoTarget(m[j].dn, key) {
        assert m[j] in m;
      }
    }
  }

  /** The delete record `_append_delete_operation` writes for a removed object */
  function Tombstone(c: Ctx, cls: string, dn: string): (t: MO)
    ensures t.dn == dn && t.op == "delete" && t.params == [] && t.lists == []
  {
    MO(ClassValue(c.ratType, dn, cls), dn, ResolveVersion(c.moVersion, cls), "delete", [], [])
  }

  /** The objects whose distName does not contain `kw`, in order */
  function Untouched(mos: seq<MO>, kw: string): seq<MO>
    decreases |mos|
  {
    if mos == [] then []
    else (if Contains(mos[0].dn, kw) then [] else [mos[0]]) + Untouched(mos[1..], kw)
  }

  /** The objects kept are exactly those whose distName does not contain `kw`. */
  lemma {:induction false} UntouchedMembers(mos: seq<MO>, kw: string)
    ensures forall mo :: mo in Untouched(mos, kw) <==> mo in mos && !Contains(mo.dn, kw)
    decreases |mos|
  {
    if mos != [] {
      UntouchedMembers(mos[1..], kw);
      assert forall mo :: mo in mos <==> mo == mos[0] || mo in mos[1..];
    }
  }

  /** One delete record per object whose distName contains `kw`, in order */
  function Tombstones(c: Ctx, cls: string, mos: seq<MO>, kw: string): seq<MO>
    decreases |mos|
  {
    if mos == [] then []
    else (if Contains(mos[0].dn, kw) then [Tombstone(c, cls, mos[0].dn)] else []) + Tombstones(c, cls, mos[1..], kw)
  }

  /** Every record is a delete of an object whose distName contains `kw`. */
  lemma {:induction false} TombstonesShape(c: Ctx, cls: string, mos: seq<MO>, kw: string)
    ensures forall t :: t in Tombstones(c, cls, mos, kw) ==> t.op == "delete" && Contains(t.dn, kw)
    decreases |mos|
  {
    if mos != [] {
      TombstonesShape(c, cls, mos[1..], kw);
    }
  }

  /** Each object is kept or turned into exactly one delete record. */
  lemma {:induction false} ScfCount(c: Ctx, cls: string, mos: seq<MO>, kw: string)
    ensures |Untouched(mos, kw)| + |Tombstones(c, cls, mos, kw)| == |mos|
    ensures ExistsContaining(mos, kw) <==> Tombstones(c, cls, mos, kw) != []
    decreases |mos|
  {
    if mos != [] {
      ScfCount(c, cls, mos[1..], kw);
      if ExistsContaining(mos[1..], kw) {
        var j :| 0 <= j < |mos[1..]| && Contains(mos[1..][j].dn, kw);
        assert mos[j + 1] == mos[1..][j];
      }
      if ExistsContaining(mos, kw) && !Contains(mos[0].dn, kw) {
        var j :| 0 <= j < |mos| && Contains(mos[j].dn, kw);
        assert mos[1..][j - 1] == mos[j];
      }
    }
  }

  predicate ExistsContaining(mos: seq<MO>, kw: string)
  {
    exists j :: 0 <= j < |mos| && Contains(mos[j].dn, kw)
  }

  /** `do_no_mo_scf`: every object whose distName contains "/cls-id" leaves the tree and a delete
      record for it is appended, so the untouched objects come first, then the records. */
  function NoMoScfSpec(n: Nav, c: Ctx, tokens: seq<string>): (r: Step)
    ensures r.out.Done? && SamePlace(n, r.st) && r.st.moClass == n.moClass
    ensures |tokens| == 2 && Truthy(n.btsId) && ExistsContaining(n.doc.mos, "/" + tokens[0] + "-" + tokens[1]) ==>
              var kw := "/" + tokens[0] + "-" + tokens[1];
              r.st.doc.mos == Untouched(n.doc.mos, kw) + Tombstones(c, tokens[0], n.doc.mos, kw)
              && |r.st.doc.mos| == |n.doc.mos| && r.st.errors == n.errors
  {
    if |tokens| != 2 then Step(Perror(n, MsgNoMoUsage), Done)
    else if !Truthy(n.btsId) then Step(Perror(n, MsgNoBts), Done)
    else
      var kw := "/" + tokens[0] + "-" + tokens[1];
      var ts := Tombstones(c, tokens[0], n.doc.mos, kw);
      ScfCount(c, tokens[0], n.doc.mos, kw);
      if ts == [] then Step(Perror(n, MsgNoTarget), Done)
      else Step(n.(doc := n.doc.(mos := Untouched(n.doc.mos, kw) + ts)), Done)
  }

  /** `do_no_pa`: remove the first `p` of that name from the object of the current path. An object
      element without children is falsy and reads as not found. */
  function NoPaSpec(n: Nav, tokens: seq<string>): (r: Step)
    ensures r.out.Done? && SamePlace(n, r.st) && r.st.moClass == n.moClass && SameSkeleton(n.doc, r.st.doc)
    ensures |tokens| == 1 && Truthy(n.moClass) && FirstWithDn(n.doc.mos, n.matchTail).Some? ==>
              var i := FirstWithDn(n.doc.mos, n.matchTail).value;
              var mo := n.doc.mos[i];
              (mo.params != [] || mo.lists != []) ==>
                r.st.doc.mos == n.doc.mos[i := mo.(params := RemoveP(mo.params, tokens[0]))]
                && r.st.errors == n.errors
  {
    if |tokens| != 1 then Step(Perror(n, MsgNoPaUsage), Done)
    else if !Truthy(n.moClass) then Step(Perror(n, MsgNoMo), Done)
    else
      match FirstWithDn(n.doc.mos, n.matchTail)
      case None => Step(Perror(n, MsgNoXmlMo), Done)
      case Some(i) =>
        var mo := n.doc.mos[i];
        if mo.params == [] && mo.lists == [] then Step(Perror(n, MsgNoXmlMo), Done)
        else Step(UpdateMo(n, i, mo.(params := RemoveP(mo.params, tokens[0]))), Done)
  }

  /** After `no-pa`, the other names of the object read as before, and one `p` of the name is gone. */
  lemma NoPaEffect(n: Nav, name: string)
    requires Truthy(n.moClass) && FirstWithDn(n.doc.mos, n.matchTail).Some?
    requires var mo := n.doc.mos[FirstWithDn(n.doc.mos, n.matchTail).value]; mo.params != [] || mo.lists != []
    ensures var i := FirstWithDn(n.doc.mos, n.matchTail).value;
            var ps := NoPaSpec(n, [name]).st.doc.mos[i].params;
            var ps0 := n.doc.mos[i].params;
            (forall k :: k != name ==> LookupP(ps, k) == LookupP(ps0, k))
            && |ps| == (if LookupP(ps0, name).Some? then |ps0| - 1 else |ps0|)
  {
  }

  // ----- filling in declared parameters -----

  /** A declared parameter `add-auto-pa` fills: every one with `-a`, else the required scalars. */
  predicate AutoWanted(e: Schema.ParamEntry, addAll: bool)
  {
    addAll || (e.Scalar? && e.required)
  }

  /** The value it gets: the catalog default, or "TEMP_<name>" when there is none or it reads "null". */
  function AutoValue(key: string, e: Schema.ParamEntry): string
  {
    var d := if e.Scalar? then e.default else None;
    if d.None? || Lower(d.value) == "null" then "TEMP_" + key else d.value
  }

  /** The parameters added, in catalog order, to an object that already has `ps` */
  function AutoParams(ps: seq<P>, decl: seq<(string, Schema.ParamEntry)>, addAll: bool): (r: seq<P>)
    ensures |ps| <= |r| && r[..|ps|] == ps
    decreases |decl|
  {
    if decl == [] then ps
    else
      var key := decl[0].0;
      var e := decl[0].1;
      var ps1 := if !AutoWanted(e, addAll) || LookupP(ps, key).Some? then ps else ps + [P(key, AutoValue(key, e))];
      var r := AutoParams(ps1, decl[1..], addAll);
      assert r[..|ps|] == r[..|ps1|][..|ps|];
      r
  }

  /** The first wanted catalog entry of a name */
  function FirstWanted(decl: seq<(string, Schema.ParamEntry)>, addAll: bool, k: string): Option<Schema.ParamEntry>
    decreases |decl|
  {
    if decl == [] then None
    else if decl[0].0 == k && AutoWanted(decl[0].1, addAll) then Some(decl[0].1)
    else FirstWanted(decl[1..], addAll, k)
  }

  /** After filling in, a name holds its old value if it had one, else the value of its first
      wanted catalog entry, else nothing. */
  lemma {:induction false} AutoParamsLookup(ps: seq<P>, decl: seq<(string, Schema.ParamEntry)>, addAll: bool, k: string)
    ensures LookupP(AutoParams(ps, decl, addAll), k)
            == if LookupP(ps, k).Some? then LookupP(ps, k)
               else if FirstWanted(decl, addAll, k).Some? then Some(AutoValue(k, FirstWanted(decl, addAll, k).value))
               else None
    decreases |decl|
  {
    if decl != [] {
      var key := decl[0].0;
      var e := decl[0].1;
      var ps1 := if !AutoWanted(e, addAll) || LookupP(ps, key).Some? then ps else ps + [P(key, AutoValue(key, e))];
      AutoParamsLookup(ps1, decl[1..], addAll, k);
      LookupPAppend(ps, [P(key, AutoValue(key, e))], k);
    }
  }

  /** The object `add-auto-pa` finds: the class is set and catalogued, and declares parameters */
  function AutoPaPrecheck(n: Nav, c: Ctx): (r: Option<Step>)
    ensures r.Some? ==> r.value.st.doc == n.doc && SamePlace(n, r.value.st)
  {
    if !Truthy(n.moClass) then Some(Step(Perror(n, MsgNoMo), Done))
    else if c.schema.None? then Some(Step(n, Raised("TypeError")))
    else if n.moClass.value !in c.schema.value then Some(Step(Perror(n, MsgNotCatalogued), Done))
    else if c.schema.value[n.moClass.value].params == [] then Some(Step(n, Done))
    else None
  }

  /** Fill in the declared parameters of object `i` */
  function AutoFill(n: Nav, c: Ctx, addAll: bool, i: nat): (r: Step)
    requires AutoPaPrecheck(n, c).None? && i < |n.doc.mos|
    ensures r.out.Done? && SamePlace(n, r.st) && r.st.errors == n.errors && SameSkeleton(n.doc, r.st.doc)
  {
    var mo := n.doc.mos[i];
    var decl := c.schema.value[n.moClass.value].params;
    Step(UpdateMo(n, i, mo.(params := AutoParams(mo.params, decl, addAll))), Done)
  }

  /** `do_add_auto_pa` as written: when no object has the current path, `target_mo` was never
      bound and the test of it raises. */
  function AddAutoPaAsWritten(n: Nav, c: Ctx, args: seq<string>): (r: Step)
    ensures AutoPaPrecheck(n, c).None? && FirstWithDn(n.doc.mos, n.matchTail).None? ==>
              r == Step(n, Raised("UnboundLocalError"))
  {
    match AutoPaPrecheck(n, c)
    case Some(s) => s
    case None =>
      match FirstWithDn(n.doc.mos, n.matchTail)
      case None => Step(n, Raised("UnboundLocalError"))
      case Some(i) => AutoFill(n, c, "-a" in args, i)
  }

  /** `do_add_auto_pa` as evidently intended: a missing object is reported. */
  function AddAutoPaSpec(n: Nav, c: Ctx, args: seq<string>): (r: Step)
    ensures SamePlace(n, r.st)
    ensures r.out.Raised? <==> Truthy(n.moClass) && c.schema.None?
    ensures AutoPaPrecheck(n, c).None? && FirstWithDn(n.doc.mos, n.matchTail).None? ==>
              r == Step(Perror(n, MsgNoXmlMo), Done)
  {
    match AutoPaPrecheck(n, c)
    case Some(s) => s
    case None =>
      match FirstWithDn(n.doc.mos, n.matchTail)
      case None => Step(Perror(n, MsgNoXmlMo), Done)
      case Some(i) => AutoFill(n, c, "-a" in args, i)
  }

  /** After `add-auto-pa`, the current object holds every wanted declared name, and each name
      that was already there keeps its value. */
  lemma AddAutoPaEffect(n: Nav, c: Ctx, args: seq<string>, k: string)
    requires AutoPaPrecheck(n, c).None? && FirstWithDn(n.doc.mos, n.matchTail).Some?
    ensures var i := FirstWithDn(n.doc.mos, n.matchTail).value;
            var decl := c.schema.value[n.moClass.value].params;
            var before := n.doc.mos[i].params;
            var after := AddAutoPaSpec(n, c, args).st.doc.mos[i].params;
            (LookupP(before, k).Some? ==> LookupP(after, k) == LookupP(before, k))
            && (FirstWanted(decl, "-a" in args, k).Some? ==> LookupP(after, k).Some?)
            && (LookupP(before, k).None? && FirstWanted(decl, "-a" in args, k).None? ==> LookupP(after, k).None?)
  {
    var i := FirstWithDn(n.doc.mos, n.matchTail).value;
    var decl := c.schema.value[n.moClass.value].params;
    AutoParamsLookup(n.doc.mos[i].params, decl, "-a" in args, k);
  }

  // ----- renaming the current object -----

  /** `re.search(tok + r"(\d+)", s)` from `start`: the digits after the leftmost `tok` followed by one. */
  function SearchId(s: string, tok: string, start: nat): (r: Option<string>)
    ensures r.Some? ==> IsDigits(r.value)
    decreases |s| - start
  {
    if start + |tok| >= |s| then None
    else if OccursAt(s, tok, start) && IsDigitChar(s[start + |tok|]) then
      var e := Schema.DigitRun(s, start + |tok|);
      Some(s[start + |tok|..e])
    else SearchId(s, tok, start + 1)
  }

  /** The rename loop as written: every distName starting with the path has every
      occurrence of `os` replaced. */
  function RenameAll(mos: seq<MO>, tail: string, os: string, ns: string): (r: seq<MO>)
    requires |os| > 0
    ensures |r| == |mos|
    ensures forall j :: 0 <= j < |mos| && !StartsWith(mos[j].dn, tail) ==> r[j] == mos[j]
    ensures forall j :: 0 <= j < |mos| && StartsWith(mos[j].dn, tail) ==> r[j] == mos[j].(dn := ReplaceAll(mos[j].dn, os, ns))
    decreases |mos|
  {
    if mos == [] then []
    else
      var mo := mos[0];
      [if StartsWith(mo.dn, tail) then mo.(dn := ReplaceAll(mo.dn, os, ns)) else mo] + RenameAll(mos[1..], tail, os, ns)
  }

  /** `do_chg_mo_id` as written (the exit at the end answered by `confirm`). */
  function ChgMoIdAsWritten(n: Nav, tokens: seq<string>, confirm: string): Nav
  {
    if |tokens| != 1 then Perror(n, MsgChgUsage)
    else if !IsDigits(tokens[0]) then Perror(n, MsgIdDigits)
    else if n.matchTail == "" || !Truthy(n.moClass) then Perror(n, MsgNoPosition)
    else
      var cls := n.moClass.value;
      match SearchId(n.matchTail, cls + "-", 0)
      case None => Perror(n, MsgNoOldId)
      case Some(prev) =>
        if prev == tokens[0] then n
        else
          var os := cls + "-" + prev;
          var ns := cls + "-" + tokens[0];
          var n1 := n.(doc := n.doc.(mos := RenameAll(n.doc.mos, n.matchTail, os, ns)),
                       matchTail := ReplaceAll(n.matchTail, os, ns));
          ExitSpec(n1, confirm).0
  }

  /** As written, a rename replaces the id segment in every distName that starts with the path. */
  lemma ChgMoIdAsWrittenTree(n: Nav, id: string, confirm: string, prev: string)
    requires IsDigits(id) && n.matchTail != "" && Truthy(n.moClass)
    requires SearchId(n.matchTail, n.moClass.value + "-", 0) == Some(prev) && prev != id
    ensures ChgMoIdAsWritten(n, [id], confirm).doc.mos
            == RenameAll(n.doc.mos, n.matchTail, n.moClass.value + "-" + prev, n.moClass.value + "-" + id)
  {
  }

  /** The object at `tail` and the objects below it */
  predicate InSubtree(dn: string, tail: string)
  {
    dn == tail || StartsWith(dn, tail + "/")
  }

  /** The corrected rename: the subtree of `tail`, and only it, moves to `newTail`. */
  function Rebase(mos: seq<MO>, tail: string, newTail: string): (r: seq<MO>)
    ensures |r| == |mos|
    ensures forall j :: 0 <= j < |mos| ==>
              r[j] == if InSubtree(mos[j].dn, tail) then mos[j].(dn := newTail + mos[j].dn[|tail|..]) else mos[j]
    decreases |mos|
  {
    if mos == [] then []
    else
      var mo := mos[0];
      [if InSubtree(mo.dn, tail) then mo.(dn := newTail + mo.dn[|tail|..]) else mo] + Rebase(mos[1..], tail, newTail)
  }

  /** A moved object lands in the subtree of the new path, with the same relative path. */
  lemma RebaseLands(dn: string, tail: string, newTail: string)
    requires InSubtree(dn, tail)
    ensures InSubtree(newTail + dn[|tail|..], newTail)
    ensures (newTail + dn[|tail|..])[|newTail|..] == dn[|tail|..]
    ensures tail + dn[|tail|..] == dn
  {
    if dn != tail {
      assert dn[..|tail| + 1] == tail + "/";
      assert dn[|tail|..][..1] == "/";
      var m := newTail + dn[|tail|..];
      assert m[..|newTail| + 1] == newTail + "/";
    }
  }

  /** Renaming back undoes a rename, provided nothing lived under the new path before. */
  lemma RebaseBack(mos: seq<MO>, tail: string, newTail: string)
    requires forall j :: 0 <= j < |mos| ==> !InSubtree(mos[j].dn, newTail)
    ensures Rebase(Rebase(mos, tail, newTail), newTail, tail) == mos
  {
    var r := Rebase(mos, tail, newTail);
    var b := Rebase(r, newTail, tail);
    forall j | 0 <= j < |mos| ensures b[j] == mos[j] {
      if InSubtree(mos[j].dn, tail) {
        RebaseLands(mos[j].dn, tail, newTail);
      }
    }
  }

  /** The id in the last segment of the path, when that segment reads `cls-<digits>` */
  function CurrentId(tail: string, cls: string): (r: Option<string>)
    ensures r.Some? ==> IsDigits(r.value) && EndsWith(tail, cls + "-" + r.value)
  {
    var last := AfterLast(tail, '/');
    var tok := cls + "-";
    if StartsWith(last, tok) && IsDigits(last[|tok|..]) then
      assert last == tok + last[|tok|..];
      AfterLastSuffix(tail, '/');
      Some(last[|tok|..])
    else None
  }

  /** The path with its last id replaced */
  function RenamedTail(tail: string, prev: string, id: string): (r: string)
    requires |prev| <= |tail|
  {
    tail[..|tail| - |prev|] + id
  }

  /** The renamed path ends in the class and the new id. */
  lemma RenamedTailEnds(tail: string, tok: string, prev: string, id: string)
    requires EndsWith(tail, tok + prev)
    ensures EndsWith(RenamedTail(tail, prev, id), tok + id)
  {
    var t := RenamedTail(tail, prev, id);
    assert tail[|tail| - |tok + prev|..] == tok + prev;
    assert tail[..|tail| - |prev|][|tail| - |prev| - |tok|..] == tok;
    assert t[|t| - |tok + id|..] == tok + id;
  }

  /** `do_chg_mo_id` as evidently intended: the id of the current object is the one in the last
      segment of the path, and only that object and the objects below it are renamed. */
  function ChgMoIdSpec(n: Nav, tokens: seq<string>, confirm: string): (r: Nav)
    ensures r.btsId == n.btsId && r.inputs == n.inputs
  {
    if |tokens| != 1 then Perror(n, MsgChgUsage)
    else if !IsDigits(tokens[0]) then Perror(n, MsgIdDigits)
    else if n.matchTail == "" || !Truthy(n.moClass) then Perror(n, MsgNoPosition)
    else
      match CurrentId(n.matchTail, n.moClass.value)
      case None => Perror(n, MsgNoOldId)
      case Some(prev) =>
        if prev == tokens[0] then n
        else
          var newTail := RenamedTail(n.matchTail, prev, tokens[0]);
          var n1 := n.(doc := n.doc.(mos := Rebase(n.doc.mos, n.matchTail, newTail)), matchTail := newTail);
          ExitSpec(n1, confirm).0
  }

  /** A rename changes the tree by exactly the corrected rebase. */
  lemma ChgMoIdTree(n: Nav, id: string, confirm: string, prev: string)
    requires IsDigits(id) && n.matchTail != "" && Truthy(n.moClass)
    requires CurrentId(n.matchTail, n.moClass.value) == Some(prev) && prev != id
    ensures ChgMoIdSpec(n, [id], confirm).doc.mos == Rebase(n.doc.mos, n.matchTail, RenamedTail(n.matchTail, prev, id))
    ensures EndsWith(RenamedTail(n.matchTail, prev, id), n.moClass.value + "-" + id)
  {
    RenamedTailEnds(n.matchTail, n.moClass.value + "-", prev, id);
  }

  /** What the rebase does: objects outside the subtree stay, those inside move below the new
      path with the same relative path. */
  lemma RebaseEffect(mos: seq<MO>, tail: string, newTail: string)
    ensures var m := Rebase(mos, tail, newTail);
            (forall j :: 0 <= j < |m| && !InSubtree(mos[j].dn, tail) ==> m[j] == mos[j])
            && (forall j :: 0 <= j < |m| && InSubtree(mos[j].dn, tail) ==>
                  InSubtree(m[j].dn, newTail) && m[j].dn[|newTail|..] == mos[j].dn[|tail|..]
                  && Identity(m[j]).0 == mos[j].cls && m[j].params == mos[j].params && m[j].lists == mos[j].lists)
  {
    forall j | 0 <= j < |mos| && InSubtree(mos[j].dn, tail)
      ensures InSubtree(newTail + mos[j].dn[|tail|..], newTail)
      ensures (newTail + mos[j].dn[|tail|..])[|newTail|..] == mos[j].dn[|tail|..]
    {
      RebaseLands(mos[j].dn, tail, newTail);
    }
  }

  // ----- list and port helpers -----

  /** `_next_index(dn, name)`: one past the items of the list, or past its bare values when it has
      no items; 1 when there is no such object or list. */
  function NextIndex(mos: seq<MO>, dn: string, name: string): (r: nat)
    ensures r >= 1
  {
    match FirstWithDn(mos, dn)
    case None => 1
    case Some(i) =>
      match FindList(mos[i].lists, name)
      case None => 1
      case Some(j) =>
        var l := mos[i].lists[j];
        if |l.items| > 0 then |l.items| + 1 else |l.bare| + 1
  }

  /** Writing a record at the next index of a list with items appends one item. */
  lemma NextIndexAppendsItem(mos: seq<MO>, dn: string, name: string, fs: seq<(string, string)>)
    requires FirstWithDn(mos, dn).Some?
    requires var mo := mos[FirstWithDn(mos, dn).value]; FindList(mo.lists, name).Some?
    requires var mo := mos[FirstWithDn(mos, dn).value]; mo.lists[FindList(mo.lists, name).value].items != []
    ensures var mo := mos[FirstWithDn(mos, dn).value];
            var l := mo.lists[FindList(mo.lists, name).value];
            var (l1, ok) := WriteRecord(l, NextIndex(mos, dn, name) - 1, fs);
            ok && l1.items == l.items + [SetFields([], fs)] && l1.bare == l.bare
  {
    var mo := mos[FirstWithDn(mos, dn).value];
    var l := mo.lists[FindList(mo.lists, name).value];
    var v := NextIndex(mos, dn, name);
    assert v == |l.items| + 1;
    WriteRecordShape(l, v, fs);
    var l1 := WriteRecord(l, v - 1, fs).0;
    assert l1.items == l.items + [SetFields([], fs)];
  }

  /** Writing a value at the next index of a list without items appends one bare value. */
  lemma NextIndexAppendsValue(mos: seq<MO>, dn: string, name: string, val: string)
    requires FirstWithDn(mos, dn).Some?
    requires var mo := mos[FirstWithDn(mos, dn).value]; FindList(mo.lists, name).Some?
    requires var mo := mos[FirstWithDn(mos, dn).value]; mo.lists[FindList(mo.lists, name).value].items == []
    ensures var mo := mos[FirstWithDn(mos, dn).value];
            var l := mo.lists[FindList(mo.lists, name).value];
            var (l1, ok) := WriteVal(l, NextIndex(mos, dn, name) - 1, val);
            ok && l1.bare == l.bare + [val] && l1.items == l.items
  {
    var mo := mos[FirstWithDn(mos, dn).value];
    var l := mo.lists[FindList(mo.lists, name).value];
    var v := NextIndex(mos, dn, name);
    assert v == |l.bare| + 1;
    WriteValShape(l, v, val);
    var l1 := WriteVal(l, v - 1, val).0;
    assert l1.bare == l.bare + [val];
  }

  /** Some bare value, stripped, equals `value` */
  function AnyStripped(bare: seq<string>, value: string): (r: bool)
    ensures r <==> exists k :: 0 <= k < |bare| && Strip(bare[k]) == value
    decreases |bare|
  {
    if bare == [] then false
    else if Strip(bare[0]) == value then true
    else
      var r := AnyStripped(bare[1..], value);
      assert forall k :: 1 <= k < |bare| ==> bare[k] == bare[1..][k - 1];
      r
  }

  /** `_list_has_p_value(dn, name, value)` */
  function ListHasPValue(mos: seq<MO>, dn: string, name: string, value: string): (r: bool)
    ensures r <==> FirstWithDn(mos, dn).Some?
                   && FindList(mos[FirstWithDn(mos, dn).value].lists, name).Some?
                   && var l := mos[FirstWithDn(mos, dn).value].lists[FindList(mos[FirstWithDn(mos, dn).value].lists, name).value];
                      exists k :: 0 <= k < |l.bare| && Strip(l.bare[k]) == value
  {
    match FirstWithDn(mos, dn)
    case None => false
    case Some(i) =>
      match FindList(mos[i].lists, name)
      case None => false
      case Some(j) => AnyStripped(mos[i].lists[j].bare, value)
  }

  function CountOf(xs: seq<string>, x: string): nat
    decreases |xs|
  {
    if xs == [] then 0 else (if xs[0] == x then 1 else 0) + CountOf(xs[1..], x)
  }

  /** `_select_antl_ports_by_counts`: ports 1 and 2 for up to two channels of a direction, ports
      1, 2, 5 and 6 for more. */
  function SelectAntlPorts(directions: seq<string>): (r: (seq<int>, seq<int>))
    ensures CountOf(directions, "TX") <= 4 ==> |r.0| >= CountOf(directions, "TX")
    ensures CountOf(directions, "RX") <= 4 ==> |r.1| >= CountOf(directions, "RX")
    ensures |r.0| <= 4 && r.0 == [1, 2, 5, 6][..|r.0|]
    ensures |r.1| <= 4 && r.1 == [1, 2, 5, 6][..|r.1|]
    ensures CountOf(directions, "TX") <= 2 <==> |r.0| == 2
    ensures CountOf(directions, "RX") <= 2 <==> |r.1| == 2
  {
    var tx := if CountOf(directions, "TX") <= 2 then [1, 2] else [1, 2, 5, 6];
    var rx := if CountOf(directions, "RX") <= 2 then [1, 2] else [1, 2, 5, 6];
    (tx, rx)
  }

  /** `_variant_to_nrcell_from_variant`: "4_2" reads as "4DL2UL"; only the first two numbers count. */
  function VariantToNrcell(variant: Option<string>): (r: string)
    ensures r == "" || exists d, u :: IsDigits(d) && IsDigits(u) && r == d + "DL" + u + "UL"
  {
    var v := StripChars(variant.GetOr(""), {'_'});
    if v == "" then ""
    else
      var parts := Split(v, "_");
      if |parts| >= 2 && IsDigits(parts[0]) && IsDigits(parts[1]) then parts[0] + "DL" + parts[1] + "UL" else ""
  }

  /** The variant written as "<down>_<up>" reads back as the cell type with those numbers. */
  lemma VariantRoundTrip(d: string, u: string)
    requires IsDigits(d) && IsDigits(u)
    ensures VariantToNrcell(Some(d + "_" + u)) == d + "DL" + u + "UL"
  {
    var s := d + "_" + u;
    assert s[0] == d[0] && s[|s| - 1] == u[|u| - 1];
    assert StripChars(s, {'_'}) == s;
    assert '_' !in d by { assert forall i :: 0 <= i < |d| ==> IsDigitChar(d[i]); }
    assert '_' !in u by { assert forall i :: 0 <= i < |u| ==> IsDigitChar(u[i]); }
    SplitSnoc(d, '_', u);
    SplitFree(d, '_');
    assert s == d + ['_'] + u;
  }

  // ----- the discrepancies of the tree commands as written, on concrete inputs -----

  /** A valid `no-mo` on a station raises as written, where the intended command removes the target. */
  lemma NoMoFinding(n: Nav, cls: string, id: string)
    requires Truthy(n.btsId) && !Contains(n.matchTail, cls + "-" + id)
    requires HasNoMoTarget(n.doc.mos, cls + "-" + id)
    ensures NoMoAsWritten(n, [cls, id]) == Step(n, Raised("AttributeError"))
    ensures NoMoSpec(n, [cls, id]).out.Done? && |NoMoSpec(n, [cls, id]).st.doc.mos| < |n.doc.mos|
  {
    var t := [cls, id];
    assert t[0] + "-" + t[1] == cls + "-" + id;
  }

  /** `add-auto-pa` where no object has the current path raises as written and is reported as intended. */
  lemma AddAutoPaFinding(n: Nav, c: Ctx, args: seq<string>)
    requires AutoPaPrecheck(n, c).None? && FirstWithDn(n.doc.mos, n.matchTail).None?
    ensures AddAutoPaAsWritten(n, c, args).out == Raised("UnboundLocalError")
    ensures AddAutoPaSpec(n, c, args) == Step(Perror(n, MsgNoXmlMo), Done)
  {
  }

  /** The rename example: standing on EQM-1, whose tree holds APEQM-1 below it at position 1. */
  predicate OnEqm1(n: Nav)
  {
    n.matchTail == "MRBTS-1/EQM-1" && n.moClass == Some("EQM")
    && |n.doc.mos| >= 2 && n.doc.mos[1].dn == "MRBTS-1/EQM-1/APEQM-1"
  }

  /** The id search on the example path finds 1. */
  lemma EqmSearch()
    ensures SearchId("MRBTS-1/EQM-1", "EQM-", 0) == Some("1")
  {
    var tail := "MRBTS-1/EQM-1";
    assert tail[..8] == "MRBTS-1/";
    NoOccurrenceBefore(tail, "EQM-", 8);
    assert tail[8..12] == "EQM-";
    SearchIdFirst(tail, "EQM-", 0, 8);
    Schema.DigitRunOver(tail, 12, 13);
    assert tail[12..13] == "1";
  }

  /** In the rest "/APEQM-1" of the child's distName the old segment is found inside APEQM-1. */
  lemma EqmReplaceRest()
    ensures ReplaceAll("/APEQM-1", "EQM-1", "EQM-2") == "/APEQM-2"
  {
    ReplaceLead("/AP", "EQM-1", "EQM-2", "");
    ReplaceAbsent("", "EQM-1", "EQM-2");
    assert "/AP" + "EQM-1" + "" == "/APEQM-1";
    assert "/AP" + "EQM-2" + "" == "/APEQM-2";
  }

  /** Replacing every "EQM-1" in the child's distName also hits its own segment APEQM-1. */
  lemma EqmReplace()
    ensures ReplaceAll("MRBTS-1/EQM-1/APEQM-1", "EQM-1", "EQM-2") == "MRBTS-1/EQM-2/APEQM-2"
  {
    var h, a, b := "MRBTS-1/", "EQM-1", "/APEQM-1";
    assert h + a + b == "MRBTS-1/EQM-1/APEQM-1";
    assert h + "EQM-2" + "/APEQM-2" == "MRBTS-1/EQM-2/APEQM-2";
    ReplaceLead(h, a, "EQM-2", b);
    EqmReplaceRest();
  }

  /** The last segment of the example path holds the id 1. */
  lemma EqmCurrentId()
    ensures CurrentId("MRBTS-1/EQM-1", "EQM") == Some("1")
  {
    AfterLastAppend("MRBTS-1", '/', "EQM-1");
    assert "MRBTS-1/EQM-1" == "MRBTS-1" + ['/'] + "EQM-1";
    assert "EQM-1"[..4] == "EQM-";
    assert "EQM-1"[4..] == "1";
  }

  /** Renaming EQM-1 to EQM-2 as written also renames the APEQM below it to APEQM-2, since every
      occurrence of "EQM-1" is replaced. */
  lemma ChgMoIdFinding(n: Nav, confirm: string)
    requires OnEqm1(n)
    ensures ChgMoIdAsWritten(n, ["2"], confirm).doc.mos[1].dn == "MRBTS-1/EQM-2/APEQM-2"
  {
    EqmSearch();
    assert n.moClass.value + "-" == "EQM-";
    ChgMoIdAsWrittenTree(n, "2", confirm, "1");
    assert n.moClass.value + "-" + "1" == "EQM-1" && n.moClass.value + "-" + "2" == "EQM-2";
    var m := RenameAll(n.doc.mos, n.matchTail, "EQM-1", "EQM-2");
    assert "MRBTS-1/EQM-1/APEQM-1"[..13] == "MRBTS-1/EQM-1";
    assert StartsWith(n.doc.mos[1].dn, n.matchTail);
    assert m[1].dn == ReplaceAll("MRBTS-1/EQM-1/APEQM-1", "EQM-1", "EQM-2");
    EqmReplace();
  }

  /** The path facts of the corrected rename example */
  lemma EqmRebasePaths()
    ensures RenamedTail("MRBTS-1/EQM-1", "1", "2") == "MRBTS-1/EQM-2"
    ensures InSubtree("MRBTS-1/EQM-1/APEQM-1", "MRBTS-1/EQM-1")
    ensures "MRBTS-1/EQM-1/APEQM-1"[|"MRBTS-1/EQM-1"|..] == "/APEQM-1"
  {
    var tail := "MRBTS-1/EQM-1";
    var child := "MRBTS-1/EQM-1/APEQM-1";
    assert tail[..|tail| - 1] == "MRBTS-1/EQM-";
    assert child[..|tail + "/"|] == tail + "/";
  }

  /** The intended rename of the same example keeps APEQM-1 and moves it below EQM-2. */
  lemma ChgMoIdFindingCorrected(n: Nav, confirm: string)
    requires OnEqm1(n)
    ensures ChgMoIdSpec(n, ["2"], confirm).doc.mos[1].dn == "MRBTS-1/EQM-2/APEQM-1"
  {
    EqmCurrentId();
    EqmRebasePaths();
    ChgMoIdMoves(n, "2", confirm, "1", 1);
    EqmMovedPath();
  }

  /** The moved child's new distName */
  lemma EqmMovedPath()
    ensures "MRBTS-1/EQM-2" + "/APEQM-1" == "MRBTS-1/EQM-2/APEQM-1"
  {
  }

  /** An object below the renamed one keeps its path relative to it. */
  lemma ChgMoIdMoves(n: Nav, id: string, confirm: string, prev: string, i: nat)
    requires IsDigits(id) && n.matchTail != "" && Truthy(n.moClass)
    requires CurrentId(n.matchTail, n.moClass.value) == Some(prev) && prev != id
    requires i < |n.doc.mos| && InSubtree(n.doc.mos[i].dn, n.matchTail)
    ensures ChgMoIdSpec(n, [id], confirm).doc.mos[i].dn
            == RenamedTail(n.matchTail, prev, id) + n.doc.mos[i].dn[|n.matchTail|..]
  {
    ChgMoIdTree(n, id, confirm, prev);
  }

  /** The search stops at the first place `tok` is followed by a digit. */
  lemma {:induction false} SearchIdFirst(s: string, tok: string, start: nat, k: nat)
    requires start <= k && k + |tok| < |s| && OccursAt(s, tok, k) && IsDigitChar(s[k + |tok|])
    requires forall j :: start <= j < k ==> !OccursAt(s, tok, j)
    ensures SearchId(s, tok, start) == Some(s[k + |tok|..Schema.DigitRun(s, k + |tok|)])
    decreases k - start
  {
    if start < k {
      SearchIdFirst(s, tok, start + 1, k);
    }
  }
}
