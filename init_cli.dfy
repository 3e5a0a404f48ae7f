// The configuration CLI session itself (cli/core/config/init_cli.py): which rulebook file a
// (mode, DU type, RAT) combination loads, starting and dropping the work on one station
// (`do_tgt_bts`, `do_no_tgt_bts`), and the commands offered at each level (`get_names`).
// The initial session state is the constructor of Session.CliSession; `perror` is its PerrorM.

module InitCli {
  import opened Wrappers
  import opened Text
  import opened Session
  import Tree
  import ClientConfig
  import TreeNav
  import TreeCommands

  // ----- _load_rulebook -----

  /** The file a rulebook is read from, or the exception raised before any file is chosen. */
  datatype RulebookChoice = File(name: string) | Fails(kind: string)

  /** `f"{rat_type}_{mo_version}_rulebook_{tag}_{mode}.json"` */
  function RulebookName(ratType: string, moVersion: string, tag: string, mode: string): string
  {
    ratType + "_" + moVersion + "_rulebook_" + tag + "_" + mode + ".json"
  }

  /** The file-name tag of a supported DU type (already upper-cased). */
  function DuTag(du: string): string
  {
    if du == "DU10" then "du10" else if du == "DU20" then "du20" else "FSMF"
  }

  predicate KnownMode(mode: Option<string>) { mode == Some("cell") || mode == Some("bts") }

  /** The combinations a rulebook exists for: DU10 on 5G, DU20 on any RAT, FSMF on 4G. */
  predicate Supported(du: string, rat: string)
  {
    (du == "DU10" && rat == "5G") || du == "DU20" || (du == "FSMF" && rat == "4G")
  }

  /** The filename chain of `_load_rulebook` as written: its fourth row tests DU10 a second time,
      so a bts-mode DU20 station has no row, and a 4G bts-mode DU10 station gets the DU20 file.
      Python evaluates `du_type.upper()` only once the mode matched, so a missing DU type raises
      AttributeError in cell and bts mode and ValueError in any other mode. */
  function RulebookFileAsWritten(mode: Option<string>, duType: Option<string>, ratType: string,
                                 moVersion: string): (r: RulebookChoice)
    ensures !KnownMode(mode) ==> r == Fails("ValueError")
    ensures KnownMode(mode) && duType.None? ==> r == Fails("AttributeError")
  {
    if !KnownMode(mode) then Fails("ValueError")
    else if duType.None? then Fails("AttributeError")
    else
      var du := Upper(duType.value);
      var rat := Upper(ratType);
      if mode == Some("cell") && du == "DU10" && rat == "5G" then File(RulebookName(ratType, moVersion, "du10", "cell"))
      else if mode == Some("bts") && du == "DU10" && rat == "5G" then File(RulebookName(ratType, moVersion, "du10", "bts"))
      else if mode == Some("cell") && du == "DU20" then File(RulebookName(ratType, moVersion, "du20", "cell"))
      else if mode == Some("bts") && du == "DU10" then File(RulebookName(ratType, moVersion, "du20", "bts"))
      else if mode == Some("cell") && du == "FSMF" && rat == "4G" then File(RulebookName(ratType, moVersion, "FSMF", "cell"))
      else if mode == Some("bts") && du == "FSMF" && rat == "4G" then File(RulebookName(ratType, moVersion, "FSMF", "bts"))
      else Fails("ValueError")
  }

  /** `_load_rulebook` with the fourth row testing DU20, as its file name and debug text say. */
  function RulebookFile(mode: Option<string>, duType: Option<string>, ratType: string,
                        moVersion: string): (r: RulebookChoice)
    ensures r.File? <==> KnownMode(mode) && duType.Some? && Supported(Upper(duType.value), Upper(ratType))
    ensures r.Fails? ==> (r.kind == "AttributeError" <==> KnownMode(mode) && duType.None?)
    ensures r.Fails? ==> (r.kind == "ValueError" <==> !(KnownMode(mode) && duType.None?))
    ensures r.File? ==> r.name == RulebookName(ratType, moVersion, DuTag(Upper(duType.value)), mode.value)
  {
    if !KnownMode(mode) then Fails("ValueError")
    else if duType.None? then Fails("AttributeError")
    else
      var du := Upper(duType.value);
      var rat := Upper(ratType);
      if mode == Some("cell") && du == "DU10" && rat == "5G" then File(RulebookName(ratType, moVersion, "du10", "cell"))
      else if mode == Some("bts") && du == "DU10" && rat == "5G" then File(RulebookName(ratType, moVersion, "du10", "bts"))
      else if mode == Some("cell") && du == "DU20" then File(RulebookName(ratType, moVersion, "du20", "cell"))
      else if mode == Some("bts") && du == "DU20" then File(RulebookName(ratType, moVersion, "du20", "bts"))
      else if mode == Some("cell") && du == "FSMF" && rat == "4G" then File(RulebookName(ratType, moVersion, "FSMF", "cell"))
      else if mode == Some("bts") && du == "FSMF" && rat == "4G" then File(RulebookName(ratType, moVersion, "FSMF", "bts"))
      else Fails("ValueError")
  }

  /** The repeated test only matters in bts mode: in cell mode both chains choose alike. */
  lemma RulebookFileCellAgrees(duType: Option<string>, ratType: string, moVersion: string)
    ensures RulebookFileAsWritten(Some("cell"), duType, ratType, moVersion)
            == RulebookFile(Some("cell"), duType, ratType, moVersion)
  {
  }

  /** The rows that differ: a bts-mode DU20 station raises ValueError as written and loads the
      DU20 bts file once corrected; a 4G bts-mode DU10 station loads that file as written. */
  lemma RulebookFileFinding(du20: string, du10: string, rat: string, ver: string)
    requires Upper(du20) == "DU20" && Upper(du10) == "DU10" && Upper(rat) == "4G"
    ensures RulebookFileAsWritten(Some("bts"), Some(du20), rat, ver) == Fails("ValueError")
    ensures RulebookFile(Some("bts"), Some(du20), rat, ver) == File(RulebookName(rat, ver, "du20", "bts"))
    ensures RulebookFileAsWritten(Some("bts"), Some(du10), rat, ver) == File(RulebookName(rat, ver, "du20", "bts"))
    ensures RulebookFile(Some("bts"), Some(du10), rat, ver) == Fails("ValueError")
  {
  }

  // ----- tgt-bts -----

  const MsgTgtUsage := "usage: tgt-bts <BTS_ID>"
  const MsgTgtUnset := "[오류] BTS id not set internally (run dest-bts first)"
  const MsgNoRuType := "[오류] RU type not set; run set-ru-type first"

  /** The mismatch message names both ids. */
  function MsgTgtMismatch(id: string, dest: string): string
  {
    "[오류] tgt-bts ID '" + id + "' differs from the configured BTS ID '" + dest + "'"
  }

  /** `str()` of a configuration value */
  function ShowVal(v: ClientConfig.Val): string
  {
    match v
    case Null => "None"
    case Str(t) => t
    case Flag(b) => if b then "True" else "False"
    case Doc(_) => "<Element 'raml'>"
  }

  /** The checks of `tgt-bts` and the RU and cell types it leaves behind when they pass. */
  datatype TgtCheck = TgtReject(msg: string) | TgtAccept(ruType: Option<string>, cellType: Option<string>)

  /** `do_tgt_bts` up to the reset: one token, equal to the configured `dest_bts`; in bts mode the
      RU type is fixed by the RAT, in cell mode it must have been set already. */
  function TgtBtsCheck(tokens: seq<string>, dest: ClientConfig.Val, mode: Option<string>, ratType: string,
                       ruType: Option<string>, cellType: Option<string>): (r: TgtCheck)
    ensures r.TgtAccept? <==>
              |tokens| == 1 && dest == ClientConfig.Str(tokens[0]) && (mode == Some("cell") ==> Truthy(ruType))
    ensures |tokens| == 1 && dest.Null? ==> r == TgtReject(MsgTgtUnset)
    ensures r.TgtAccept? && mode == Some("bts") && ratType == "4G" ==> r == TgtAccept(Some("AHCA"), cellType)
    ensures r.TgtAccept? && mode == Some("bts") && ratType == "5G" ==> r == TgtAccept(Some("AEQY"), Some("AEQY_4_2"))
    ensures r.TgtAccept? && !(mode == Some("bts") && (ratType == "4G" || ratType == "5G")) ==>
              r == TgtAccept(ruType, cellType)
  {
    if |tokens| != 1 then TgtReject(MsgTgtUsage)
    else if dest.Null? then TgtReject(MsgTgtUnset)
    else if dest != ClientConfig.Str(tokens[0]) then TgtReject(MsgTgtMismatch(tokens[0], ShowVal(dest)))
    else if mode == Some("bts") && ratType == "4G" then TgtAccept(Some("AHCA"), cellType)
    else if mode == Some("bts") && ratType == "5G" then TgtAccept(Some("AEQY"), Some("AEQY_4_2"))
    else if mode == Some("cell") && !Truthy(ruType) then TgtReject(MsgNoRuType)
    else TgtAccept(ruType, cellType)
  }

  /** The flat starting point `tgt-bts` enters MRBTS from. */
  function ClearRoot(n: Nav): (r: Nav)
    ensures r.btsId.None? && r.stack == [] && r.matchTail == ""
    ensures r.doc == n.doc && r.inputs == n.inputs && r.errors == n.errors
  {
    n.(btsId := None, stack := [], matchTail := "")
  }

  /** `do_tgt_bts`; `taskKey` stands for the random `secrets.token_hex(3)`. Once the checks pass,
      the session is rooted at the given station whatever it was working on before. */
  method TgtBts(s: CliSession, tokens: seq<string>, taskKey: string) returns (out: Outcome)
    modifies s`errors, s`ruType, s`cellType, s`taskKey
    modifies s`btsId, s`matchTail, s`promptStack, s`xml, s`userInputs, s`moClass, s`lastTrmodId
    ensures var chk := TgtBtsCheck(tokens, ClientConfig.Lookup(s.config.config, "dest_bts"), old(s.mode),
                                   old(s.ratType), old(s.ruType), old(s.cellType));
            chk.TgtReject? ==> out == Done && s.NavState() == Perror(old(s.NavState()), chk.msg)
                               && s.ruType == old(s.ruType) && s.cellType == old(s.cellType) && s.taskKey == old(s.taskKey)
    ensures var chk := TgtBtsCheck(tokens, ClientConfig.Lookup(s.config.config, "dest_bts"), old(s.mode),
                                   old(s.ratType), old(s.ruType), old(s.cellType));
            chk.TgtAccept? ==>
              s.ruType == chk.ruType && s.cellType == chk.cellType && s.taskKey == Some(taskKey)
              && Step(s.NavState(), out)
                 == TreeNav.EnterOrCreateSpec(ClearRoot(old(s.NavState())), old(s.CtxState()).(ruType := chk.ruType), "MRBTS", tokens[0])
              && s.btsId == Some(tokens[0]) && s.matchTail == "MRBTS-" + tokens[0]
              && s.promptStack == ["MRBTS(" + tokens[0] + ")"]
  {
    var dest := s.config.Get("dest_bts");
    var chk := TgtBtsCheck(tokens, dest, s.mode, s.ratType, s.ruType, s.cellType);
    match chk
    case TgtReject(m) =>
      s.PerrorM(m);
      return Done;
    case TgtAccept(ru, cell) =>
      out := AcceptTgt(s, ru, cell, taskKey, tokens[0]);
  }

  /** The accepted `tgt-bts`: the RU and cell types and the task key are set, then the session
      is rooted at the station. */
  method AcceptTgt(s: CliSession, ru: Option<string>, cell: Option<string>, taskKey: string, id: string)
    returns (out: Outcome)
    modifies s`errors, s`ruType, s`cellType, s`taskKey
    modifies s`btsId, s`matchTail, s`promptStack, s`xml, s`userInputs, s`moClass, s`lastTrmodId
    ensures s.ruType == ru && s.cellType == cell && s.taskKey == Some(taskKey)
    ensures Step(s.NavState(), out) == TreeNav.EnterOrCreateSpec(ClearRoot(old(s.NavState())), old(s.CtxState()).(ruType := ru), "MRBTS", id)
    ensures s.btsId == Some(id) && s.matchTail == "MRBTS-" + id && s.promptStack == ["MRBTS(" + id + ")"]
  {
    s.ruType, s.cellType := ru, cell;
    s.taskKey := Some(taskKey);
    out := EnterRoot(s, id);
  }

  /** The reset and the entry into MRBTS that end `do_tgt_bts`. */
  method EnterRoot(s: CliSession, id: string) returns (out: Outcome)
    modifies s`btsId, s`matchTail, s`promptStack, s`xml, s`userInputs, s`errors, s`moClass, s`lastTrmodId
    ensures Step(s.NavState(), out) == TreeNav.EnterOrCreateSpec(ClearRoot(old(s.NavState())), old(s.CtxState()), "MRBTS", id)
    ensures s.btsId == Some(id) && s.matchTail == "MRBTS-" + id && s.promptStack == ["MRBTS(" + id + ")"]
  {
    s.btsId, s.promptStack, s.matchTail := None, [], "";
    out := TreeCommands.EnterOrCreate(s, "MRBTS", id);
  }

  // ----- no-tgt-bts -----

  const MsgNoTgtUsage := "usage: no-tgt-bts <BTS_ID>"

  function MsgBtsMismatch(btsId: Option<string>): string
  {
    "BTS ID mismatch: the station being worked on is " + Show(btsId)
  }

  /** `input()` answered "y" or "yes", in any case and with surrounding blanks. */
  predicate Confirmed(answer: string)
  {
    Lower(Strip(answer)) == "y" || Lower(Strip(answer)) == "yes"
  }

  /** The editing state of a session that is working on no station. */
  predicate Unrooted(n: Nav)
  {
    n.doc == Tree.EmptyDoc && n.btsId.None? && n.moClass.None? && n.matchTail == "" && n.stack == ["config"]
  }

  /** `do_no_tgt_bts` with `answer` the reply to its confirmation question. */
  function NoTgtBtsSpec(n: Nav, tokens: seq<string>, answer: string): (r: Nav)
    ensures |tokens| != 1 ==> r == Perror(n, MsgNoTgtUsage)
    ensures |tokens| == 1 && n.btsId != Some(tokens[0]) ==> r == Perror(n, MsgBtsMismatch(n.btsId))
    ensures |tokens| == 1 && n.btsId == Some(tokens[0]) && !Confirmed(answer) ==> r == n
    ensures |tokens| == 1 && n.btsId == Some(tokens[0]) && Confirmed(answer) ==>
              Unrooted(r) && r.inputs == n.inputs && r.errors == n.errors && r.lastTrmodId == n.lastTrmodId
  {
    if |tokens| != 1 then Perror(n, MsgNoTgtUsage)
    else if n.btsId != Some(tokens[0]) then Perror(n, MsgBtsMismatch(n.btsId))
    else if !Confirmed(answer) then n
    else n.(doc := Tree.EmptyDoc, btsId := None, moClass := None, matchTail := "", stack := ["config"])
  }

  method NoTgtBts(s: CliSession, tokens: seq<string>, answer: string)
    modifies s`errors, s`xml, s`btsId, s`moClass, s`matchTail, s`promptStack
    ensures s.NavState() == NoTgtBtsSpec(old(s.NavState()), tokens, answer)
  {
    if |tokens| != 1 {
      s.PerrorM(MsgNoTgtUsage);
      return;
    }
    if s.btsId != Some(tokens[0]) {
      s.PerrorM(MsgBtsMismatch(s.btsId));
      return;
    }
    if !Confirmed(answer) {
      return;
    }
    s.xml := Tree.EmptyDoc;
    s.btsId, s.moClass, s.matchTail := None, None, "";
    s.promptStack := ["config"];
  }

  /** Dropping the station just started is accepted and leaves nothing of it behind but the
      recorded inputs and errors. */
  lemma TgtThenNoTgt(n: Nav, c: Ctx, id: string, answer: string)
    requires Confirmed(answer)
    ensures var m := TreeNav.EnterOrCreateSpec(ClearRoot(n), c, "MRBTS", id).st;
            var r := NoTgtBtsSpec(m, [id], answer);
            Unrooted(r) && r.inputs == m.inputs && r.errors == m.errors
  {
  }

  // ----- get_names -----

  /** The commands offered at the top level */
  const TopLevelNames: set<string> := {
    "do_tgt_bts", "do_no_tgt_bts", "do_set_cfg_tmpl", "do_set_ru_type",
    "do_gethwinfo", "do_commit_all", "do_commit_diff", "do_commit",
    "do_dnload_bts_cfg", "do_apply_bts_cfg", "do_act_bts_cfg",
    "do_no_mo", "do_no_pa", "do_show_cfg", "do_show_glb", "do_show_sib",
    "do_show_can_mo", "do_show_can_pa", "do_show_user_input",
    "do_add_auto_pa", "do_list", "do_scf_to_cli", "do_exit",
    "do_show_key", "do_auto_config"
  }

  /** The commands offered below the root */
  const SubLevelNames: set<string> := {
    "do_no_mo", "do_no_pa", "do_show_cfg", "do_exit", "do_show_key", "do_list"
  }

  /** The top level is where `match_tail` is missing or blank. */
  function Allowed(matchTail: string): set<string>
  {
    if Strip(matchTail) == "" then TopLevelNames else SubLevelNames
  }

  /** `get_names`: the inherited names that the current level allows, in their order. */
  function GetNames(names: seq<string>, matchTail: string): (r: seq<string>)
    ensures forall x :: x in r <==> x in names && x in Allowed(matchTail)
    ensures |r| <= |names|
    decreases |names|
  {
    if names == [] then []
    else
      var rest := GetNames(names[1..], matchTail);
      assert forall x :: x in names <==> x == names[0] || x in names[1..];
      if names[0] in Allowed(matchTail) then [names[0]] + rest else rest
  }

  /** Every command offered below the root is also offered at the top level. */
  lemma SubLevelWithinTop(names: seq<string>, matchTail: string)
    ensures forall x :: x in GetNames(names, matchTail) ==> x in GetNames(names, "")
  {
    assert SubLevelNames <= TopLevelNames;
  }
}
