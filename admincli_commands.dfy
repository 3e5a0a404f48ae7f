// The station-administration commands of the configuration CLI
// (cli/common/mixins/admincli_commands.py): request numbering, the dummy-object checks, the DU
// type read off the SMOD object of a downloaded tree, and the choice of server command when a
// committed file is applied or activated. The server is an input: its reply is a parameter.

module AdminCliCommands {
  import opened Wrappers
  import opened Text
  import opened Tree
  import opened Session
  import ClientConfig
  import Rules
  import Schema
  import InitCli
  import SetCommands
  import CommitCommands

  // ----- request ids -----

  /** `_next_request_id`: the current id is handed out and the counter moves on by one. */
  method NextRequestId(s: CliSession) returns (rid: int)
    modifies s`requestId
    ensures rid == old(s.requestId) && s.requestId == rid + 1
  {
    rid := s.requestId;
    s.requestId := s.requestId + 1;
  }

  /** Two requests in a row get consecutive, hence distinct, ids. */
  method TwoRequestIds(s: CliSession) returns (a: int, b: int)
    modifies s`requestId
    ensures a == old(s.requestId) && b == a + 1 && s.requestId == b + 1
  {
    a := NextRequestId(s);
    b := NextRequestId(s);
  }

  // ----- dummy objects -----

  const Dummies4G: seq<string> := ["RMOD-32767", "LNCEL-65534", "LNCEL-65535"]
  const Dummies5G: seq<string> := ["RMOD-31", "NRCELL-6144"]

  /** Some object's distName contains `key`. */
  predicate Mentioned(mos: seq<MO>, key: string)
  {
    exists j :: 0 <= j < |mos| && Contains(mos[j].dn, key)
  }

  /** Every key is contained in some distName. */
  predicate AllMentioned(mos: seq<MO>, keys: seq<string>)
  {
    forall k :: 0 <= k < |keys| ==> Mentioned(mos, keys[k])
  }

  /** The flag table of the check: one flag per key, raised by the first distName containing it. */
  method DummyFlags(mos: seq<MO>, keys: seq<string>) returns (found: seq<bool>)
    ensures |found| == |keys|
    ensures forall k :: 0 <= k < |keys| ==> (found[k] <==> Mentioned(mos, keys[k]))
  {
    found := seq(|keys|, _ => false);
    var i := 0;
    while i < |mos|
      invariant 0 <= i <= |mos| && |found| == |keys|
      invariant forall k :: 0 <= k < |keys| ==> (found[k] <==> Mentioned(mos[..i], keys[k]))
    {
      found := RaiseFlags(mos[..i], mos[i], keys, found);
      assert mos[..i + 1] == mos[..i] + [mos[i]];
      i := i + 1;
    }
    assert mos[..i] == mos;
  }

  /** One object's distName raises the flags of the keys it contains. */
  method RaiseFlags(seen: seq<MO>, mo: MO, keys: seq<string>, found: seq<bool>) returns (r: seq<bool>)
    requires |found| == |keys|
    requires forall k :: 0 <= k < |keys| ==> (found[k] <==> Mentioned(seen, keys[k]))
    ensures |r| == |keys|
    ensures forall k :: 0 <= k < |keys| ==> (r[k] <==> Mentioned(seen + [mo], keys[k]))
  {
    r := found;
    for k := 0 to |keys|
      invariant |r| == |keys|
      invariant forall m :: 0 <= m < k ==> (r[m] <==> Mentioned(seen, keys[m]) || Contains(mo.dn, keys[m]))
      invariant forall m :: k <= m < |keys| ==> r[m] == found[m]
    {
      if Contains(mo.dn, keys[k]) {
        r := r[k := true];
      }
    }
    forall m | 0 <= m < |keys|
      ensures r[m] <==> Mentioned(seen + [mo], keys[m])
    {
      MentionedSnoc(seen, mo, keys[m]);
    }
  }

  lemma MentionedSnoc(seen: seq<MO>, mo: MO, key: string)
    ensures Mentioned(seen + [mo], key) <==> Mentioned(seen, key) || Contains(mo.dn, key)
  {
    var all := seen + [mo];
    if Mentioned(seen, key) {
      var j :| 0 <= j < |seen| && Contains(seen[j].dn, key);
      assert all[j] == seen[j];
    }
    if Contains(mo.dn, key) {
      assert all[|seen|] == mo;
    }
    if Mentioned(all, key) {
      var j :| 0 <= j < |all| && Contains(all[j].dn, key);
      if j < |seen| {
        assert all[j] == seen[j];
      }
    }
  }

  /** `_check_dummy_exists_4g` / `_5g` over a tree that may be missing: False without a tree,
      otherwise True exactly when every key is contained in some distName. */
  method CheckDummies(doc: Option<CmData>, keys: seq<string>) returns (all: bool)
    ensures all <==> doc.Some? && AllMentioned(doc.value.mos, keys)
  {
    if doc.None? {
      return false;
    }
    var found := DummyFlags(doc.value.mos, keys);
    all := true;
    for k := 0 to |keys|
      invariant all <==> forall m :: 0 <= m < k ==> found[m]
    {
      all := all && found[k];
    }
  }

  /** `_check_dummy_exists_4g` on the session's tree */
  method CheckDummyExists4G(s: CliSession) returns (all: bool)
    ensures all <==> AllMentioned(s.xml.mos, Dummies4G)
  {
    all := CheckDummies(Some(s.xml), Dummies4G);
  }

  /** `_check_dummy_exists_5g` on the session's tree */
  method CheckDummyExists5G(s: CliSession) returns (all: bool)
    ensures all <==> AllMentioned(s.xml.mos, Dummies5G)
  {
    all := CheckDummies(Some(s.xml), Dummies5G);
  }

  /** The checks look for substrings, so a longer id that starts with a dummy's id counts too:
      an "RMOD-317" object satisfies the 5G "RMOD-31" test. */
  lemma LongerIdCounts(s: string, key: string, more: string)
    requires Contains(s, key + more)
    ensures Contains(s, key)
  {
    var i :| 0 <= i <= |s| && OccursAt(s, key + more, i);
    assert s[i..i + |key|] == (key + more)[..|key|];
    assert OccursAt(s, key, i);
  }

  /** Objects added to a tree never turn a passed check into a failed one. */
  lemma AllMentionedGrows(mos: seq<MO>, more: seq<MO>, keys: seq<string>)
    requires AllMentioned(mos, keys)
    ensures AllMentioned(mos + more, keys)
  {
    forall k | 0 <= k < |keys|
      ensures Mentioned(mos + more, keys[k])
    {
      var j :| 0 <= j < |mos| && Contains(mos[j].dn, keys[k]);
      assert (mos + more)[j] == mos[j];
    }
  }

  /** Step 3 of `prepare_dummy_flag`: the radio type, upper-cased, picks the check whose result
      becomes `kill_dummy_flag`; any other radio type leaves the flag as it was. */
  method SetKillDummyFlag(s: CliSession, radioType: string)
    modifies s`killDummyFlag
    ensures Upper(radioType) == "4G" ==> s.killDummyFlag == Some(AllMentioned(s.xml.mos, Dummies4G))
    ensures Upper(radioType) == "5G" ==> s.killDummyFlag == Some(AllMentioned(s.xml.mos, Dummies5G))
    ensures Upper(radioType) != "4G" && Upper(radioType) != "5G" ==> s.killDummyFlag == old(s.killDummyFlag)
  {
    var rat := Upper(radioType);
    if rat == "4G" {
      var all := CheckDummyExists4G(s);
      s.killDummyFlag := Some(all);
    } else if rat == "5G" {
      var all := CheckDummyExists5G(s);
      s.killDummyFlag := Some(all);
    }
  }

  // ----- the DU type read off SMOD-1 -----

  const MsgNoSmod := "[오류] SMOD-1 not found in xml_tree."
  const MsgNoProdCode := "[오류] prodCodePlanned has no value."
  const MsgNoProdMap := "[오류] could not fetch PRODMAPTBL.json from the server."

  function MsgNoRuType(code: string): string
  {
    "[오류] no RU type matches prodCodePlanned '" + code + "'."
  }

  function MsgNoDuType(ru: string): string
  {
    "[오류] cannot tell the DU type from RU type '" + ru + "'."
  }

  /** The text `perror` gets when an exception leaves the DU-type setting; `kind` names it. */
  function MsgDuAutoFailed(kind: string): string
  {
    "error while setting the DU type automatically: " + kind
  }

  /** The object the DU type is read from: class ending in "SMOD", distName containing "SMOD-1". */
  predicate IsSmod1(mo: MO)
  {
    EndsWith(mo.cls, "SMOD") && Contains(mo.dn, "SMOD-1")
  }

  function FirstSmod(mos: seq<MO>): (r: Option<nat>)
    ensures r.Some? ==> r.value < |mos| && IsSmod1(mos[r.value])
    ensures r.Some? ==> forall j :: 0 <= j < r.value ==> !IsSmod1(mos[j])
    ensures r.None? ==> forall j :: 0 <= j < |mos| ==> !IsSmod1(mos[j])
    decreases |mos|
  {
    if mos == [] then None
    else if IsSmod1(mos[0]) then Some(0)
    else
      var rest := FirstSmod(mos[1..]);
      assert forall j :: 1 <= j < |mos| ==> mos[j] == mos[1..][j - 1];
      if rest.None? then None else Some(rest.value + 1)
  }

  /** Index of the first entry of the product-code table whose code is `code`. */
  function FirstCode(table: seq<(string, string)>, code: string): (r: Option<nat>)
    ensures r.Some? ==> r.value < |table| && table[r.value].1 == code
    ensures r.Some? ==> forall i :: 0 <= i < r.value ==> table[i].1 != code
    ensures r.None? ==> forall i :: 0 <= i < |table| ==> table[i].1 != code
    decreases |table|
  {
    if table == [] then None
    else if table[0].1 == code then Some(0)
    else
      var rest := FirstCode(table[1..], code);
      assert forall j :: 1 <= j < |table| ==> table[j] == table[1..][j - 1];
      if rest.None? then None else Some(rest.value + 1)
  }

  /** The RU type of the first entry of the table whose code is `code`. */
  function MatchRu(table: seq<(string, string)>, code: string): (r: Option<string>)
    ensures r.None? <==> forall i :: 0 <= i < |table| ==> table[i].1 != code
    ensures r.Some? ==> exists j :: 0 <= j < |table| && table[j] == (r.value, code)
                                    && forall i :: 0 <= i < j ==> table[i].1 != code
  {
    match FirstCode(table, code)
    case None => None
    case Some(j) =>
      assert table[j] == (table[j].0, code);
      Some(table[j].0)
  }

  /** The DU type an RU type gives: on 4G by its first two letters, upper-cased (AS is DU20,
      FS is FSMF); on 5G by the whole name (ASIK is DU10, ASIL is DU20). */
  function DuOfRu(rat: string, ru: string): (r: Option<string>)
    ensures Upper(rat) == "4G" ==>
              var prefix := Upper(ru[..if |ru| < 2 then |ru| else 2]);
              (r == Some("DU20") <==> prefix == "AS") && (r == Some("FSMF") <==> prefix == "FS")
              && (r.None? <==> prefix != "AS" && prefix != "FS")
    ensures Upper(rat) == "5G" ==>
              (r == Some("DU10") <==> ru == "ASIK") && (r == Some("DU20") <==> ru == "ASIL")
              && (r.None? <==> ru != "ASIK" && ru != "ASIL")
    ensures r.Some? ==> r.value in {"DU10", "DU20", "FSMF"}
    requires Upper(rat) == "4G" || Upper(rat) == "5G"
  {
    if Upper(rat) == "4G" then
      var prefix := Upper(ru[..if |ru| < 2 then |ru| else 2]);
      if prefix == "AS" then Some("DU20") else if prefix == "FS" then Some("FSMF") else None
    else if ru == "ASIK" then Some("DU10")
    else if ru == "ASIL" then Some("DU20")
    else None
  }

  /** How the DU-type decision ends: with the message of a step that found nothing, with a DU
      type, or with `du_type` never assigned (a radio type other than 4G and 5G). */
  datatype DuDecision = NoDu(msg: string) | DuOf(ru: string, du: string) | DuUnbound

  /** `_set_du_type_from_smod` up to the call of the setter. `table` is the server's
      PRODMAPTBL value, in its order; empty when it could not be fetched. */
  function DuDecisionOf(mos: seq<MO>, table: seq<(string, string)>, rat: string): DuDecision
  {
    match FirstSmod(mos)
    case None => NoDu(MsgNoSmod)
    case Some(i) =>
      var code := LookupP(mos[i].params, "prodCodePlanned");
      if code.None? || Strip(code.value) == "" then NoDu(MsgNoProdCode)
      else if table == [] then NoDu(MsgNoProdMap)
      else
        var prod := Strip(code.value);
        match MatchRu(table, prod)
        case None => NoDu(MsgNoRuType(prod))
        case Some(ru) =>
          if ru == "" then NoDu(MsgNoRuType(prod))
          else if Upper(rat) != "4G" && Upper(rat) != "5G" then DuUnbound
          else
            match DuOfRu(rat, ru)
            case None => NoDu(MsgNoDuType(ru))
            case Some(du) => DuOf(ru, du)
  }

  /** How the decision ends: no SMOD-1 object stops it with its message; a DU type comes only
      from a planned product code, a non-empty table, a matching RU type and a radio type of 4G
      or 5G; an unbound result only from another radio type; and when every step succeeds it
      gives the DU type of the matched RU type. */
  lemma DuDecisionSteps(mos: seq<MO>, table: seq<(string, string)>, rat: string)
    ensures var r := DuDecisionOf(mos, table, rat);
            FirstSmod(mos).None? ==> r == NoDu(MsgNoSmod)
    ensures var r := DuDecisionOf(mos, table, rat);
            r.DuOf? ==>
              FirstSmod(mos).Some?
              && var code := LookupP(mos[FirstSmod(mos).value].params, "prodCodePlanned");
              code.Some? && Strip(code.value) != "" && table != []
              && MatchRu(table, Strip(code.value)) == Some(r.ru) && r.ru != ""
              && (Upper(rat) == "4G" || Upper(rat) == "5G") && DuOfRu(rat, r.ru) == Some(r.du)
    ensures var r := DuDecisionOf(mos, table, rat);
            r.DuUnbound? ==> Upper(rat) != "4G" && Upper(rat) != "5G"
    ensures var r := DuDecisionOf(mos, table, rat);
            FirstSmod(mos).Some? && table != [] && (Upper(rat) == "4G" || Upper(rat) == "5G") ==>
              var code := LookupP(mos[FirstSmod(mos).value].params, "prodCodePlanned");
              code.Some? && Strip(code.value) != "" && MatchRu(table, Strip(code.value)).Some?
              && MatchRu(table, Strip(code.value)).value != ""
              && DuOfRu(rat, MatchRu(table, Strip(code.value)).value).Some?
              ==> r == DuOf(MatchRu(table, Strip(code.value)).value, DuOfRu(rat, MatchRu(table, Strip(code.value)).value).value)
  {
    match FirstSmod(mos)
    case None =>
    case Some(i) =>
      var code := LookupP(mos[i].params, "prodCodePlanned");
      if code.Some? && Strip(code.value) != "" && table != [] {
        var prod := Strip(code.value);
        match MatchRu(table, prod)
        case None =>
        case Some(ru) =>
          if ru != "" && (Upper(rat) == "4G" || Upper(rat) == "5G") {
            match DuOfRu(rat, ru)
            case None =>
            case Some(du) => assert DuDecisionOf(mos, table, rat) == DuOf(ru, du);
          }
      }
  }

  /** A single word splits into itself. */
  lemma {:induction false} SplitWsWord(w: string)
    requires IsWord(w)
    ensures SplitWs(w) == [w]
  {
    WordLenToEnd(w, 0);
    assert !IsSpace(w[0]);
    assert w[..|w|] == w && w[|w|..] == [];
  }

  lemma {:induction false} WordLenToEnd(t: string, i: nat)
    requires i <= |t| && forall j :: i <= j < |t| ==> !IsSpace(t[j])
    ensures WordLen(t, i) == |t|
    decreases |t| - i
  {
    if i < |t| {
      WordLenToEnd(t, i + 1);
    }
  }

  /** The DU types the decision gives are accepted by `set-du-type` as they are. */
  lemma DuArgOfDecision(du: string)
    requires du in {"DU10", "DU20", "FSMF"}
    ensures SetCommands.DuArg(SplitWs(du)) == Some(du)
  {
    assert IsWord(du) by {
      assert |du| == 4;
      forall j | 0 <= j < |du| ensures !IsSpace(du[j]) {
        assert du[j] in "DU120FSM";
      }
    }
    SplitWsWord(du);
  }

  /** What `_set_du_type_from_smod` leaves, from the old log, DU type, rulebook and schema: the
      new ones. A failed step logs its message and changes nothing else; a decided DU type is
      stored, and then either the rulebook choice raises (logged) or the chosen rulebook and the
      DU schema are loaded. */
  function DuFromSmodAfter(mos: seq<MO>, table: seq<(string, string)>, rat: string, mode: Option<string>,
                           moVersion: string, loadRulebook: string -> Option<Rules.Rulebook>,
                           loadSchema: string -> Option<Schema.Dict>,
                           errors: seq<string>, du: Option<string>, rb: Option<Rules.Rulebook>, sch: Option<Schema.Dict>)
    : (seq<string>, Option<string>, Option<Rules.Rulebook>, Option<Schema.Dict>)
  {
    match DuDecisionOf(mos, table, rat)
    case NoDu(msg) => (errors + [ErrorLine(msg)], du, rb, sch)
    case DuUnbound => (errors + [ErrorLine(MsgDuAutoFailed("UnboundLocalError"))], du, rb, sch)
    case DuOf(_, d) =>
      match InitCli.RulebookFile(mode, Some(d), rat, moVersion)
      case Fails(kind) => (errors + [ErrorLine(MsgDuAutoFailed(kind))], Some(d), rb, sch)
      case File(name) => (errors, Some(d), loadRulebook(name), loadSchema(SetCommands.SchemaFile(d, moVersion)))
  }

  /** `_set_du_type_from_smod` on the session: each failed step logs its message and changes
      nothing else; a decided DU type goes through `set-du-type`, and an exception it raises
      is logged. `loadRulebook` and `loadSchema` are the setter's catalogs. */
  method SetDuTypeFromSmod(s: CliSession, table: seq<(string, string)>, loadRulebook: string -> Option<Rules.Rulebook>,
                           loadSchema: string -> Option<Schema.Dict>)
    modifies s`duType, s`rulebook, s`schema, s`errors
    ensures (s.errors, s.duType, s.rulebook, s.schema)
            == DuFromSmodAfter(s.xml.mos, table, s.ratType, s.mode, s.moVersion, loadRulebook, loadSchema,
                               old(s.errors), old(s.duType), old(s.rulebook), old(s.schema))
    ensures s.ruType == old(s.ruType)
  {
    var d := DuDecisionOf(s.xml.mos, table, s.ratType);
    match d
    case NoDu(msg) =>
      s.PerrorM(msg);
    case DuUnbound =>
      s.PerrorM(MsgDuAutoFailed("UnboundLocalError"));
    case DuOf(ru, du) =>
      SetDecidedDu(s, du, loadRulebook, loadSchema);
  }

  /** A decided DU type through `set-du-type`, with a raised exception logged. The decision's DU
      types pass the argument check unchanged (`DuArgOfDecision`), so what remains of
      `do_set_du_type` is `ApplyDuType`. */
  method SetDecidedDu(s: CliSession, du: string, loadRulebook: string -> Option<Rules.Rulebook>,
                      loadSchema: string -> Option<Schema.Dict>)
    modifies s`duType, s`rulebook, s`schema, s`errors
    ensures var choice := InitCli.RulebookFile(s.mode, Some(du), s.ratType, s.moVersion);
            s.duType == Some(du)
            && (choice.Fails? ==> s.errors == old(s.errors) + [ErrorLine(MsgDuAutoFailed(choice.kind))]
                                  && s.rulebook == old(s.rulebook) && s.schema == old(s.schema))
            && (choice.File? ==> s.rulebook == loadRulebook(choice.name)
                                 && s.schema == loadSchema(SetCommands.SchemaFile(du, s.moVersion))
                                 && s.errors == old(s.errors))
  {
    var out := SetCommands.ApplyDuType(s, du, loadRulebook, loadSchema);
    if out.Raised? {
      s.PerrorM(MsgDuAutoFailed(out.kind));
    }
  }

  // ----- applying and activating the committed file -----

  const MsgNoCommit := "no recently committed file; run commit first."
  const MsgActUsage := "usage: act-bts-cfg [--skip]"

  function MsgWrongMode(cmd: string, mode: Option<string>): string
  {
    "[오류] the " + cmd + " command is only available in 'bts' or 'cell' mode. (current: " + Show(mode) + ")"
  }

  /** A request sent to the server: its command and the JSON payload's four fields. */
  datatype Request = Request(command: string, requestId: int, file: string, skip: bool, activate: bool)

  /** The server command for the mode: commission in bts mode, recommission in cell mode. */
  function CommandForMode(mode: Option<string>): (r: Option<string>)
    ensures r == Some("commission") <==> mode == Some("bts")
    ensures r == Some("recommission") <==> mode == Some("cell")
    ensures r.None? <==> mode != Some("bts") && mode != Some("cell")
  {
    if mode == Some("bts") then Some("commission")
    else if mode == Some("cell") then Some("recommission")
    else None
  }

  /** The spellings argparse takes for `--skip`: the option or an unambiguous prefix of it. */
  const SkipSpellings: set<string> := {"--skip", "--ski", "--sk", "--s"}

  /** The `--skip` flag of `act-bts-cfg`, or None where argparse exits. */
  function SkipArg(tokens: seq<string>): (r: Option<bool>)
    ensures r.Some? <==> forall k :: 0 <= k < |tokens| ==> tokens[k] in SkipSpellings
    ensures r.Some? ==> (r.value <==> tokens != [])
    decreases |tokens|
  {
    if tokens == [] then Some(false)
    else if tokens[0] !in SkipSpellings then None
    else
      var rest := SkipArg(tokens[1..]);
      assert forall k :: 1 <= k < |tokens| ==> tokens[k] == tokens[1..][k - 1];
      if rest.None? then None else Some(true)
  }

  /** The server's answer recorded: `cmd_status` follows it and a refusal is logged. */
  method Record(s: CliSession, reply: CommitCommands.Reply)
    modifies s`errors, s.config
    ensures s.config.config == old(s.config.config)["cmd_status" := ClientConfig.Flag(reply.success)]
    ensures s.errors == old(s.errors) + (if reply.success then [] else [ErrorLine(CommitCommands.MsgServerError(reply.result))])
    ensures s.ruType == old(s.ruType)
  {
    var ok := s.config.Set("cmd_status", ClientConfig.Flag(reply.success));
    if !reply.success {
      s.PerrorM(CommitCommands.MsgServerError(reply.result));
    }
  }

  /** `do_apply_bts_cfg`: without a committed file, or outside bts and cell mode, only an error
      is logged; otherwise the file is sent, not activated and not skipped, with the next
      request id, under the command the mode chooses. */
  method ApplyBtsCfg(s: CliSession, reply: CommitCommands.Reply) returns (req: Option<Request>)
    requires s.config as object != s
    modifies s`errors, s`requestId, s.config
    ensures !Truthy(s.lastCommitFile) ==>
              req.None? && s.errors == old(s.errors) + [ErrorLine(MsgNoCommit)]
              && s.requestId == old(s.requestId) && s.config.config == old(s.config.config)
    ensures Truthy(s.lastCommitFile) && CommandForMode(s.mode).None? ==>
              req.None? && s.errors == old(s.errors) + [ErrorLine(MsgWrongMode("apply-bts-cfg", s.mode))]
              && s.requestId == old(s.requestId) && s.config.config == old(s.config.config)
    ensures Truthy(s.lastCommitFile) && CommandForMode(s.mode).Some? ==>
              req == Some(Request(CommandForMode(s.mode).value, old(s.requestId), s.lastCommitFile.value, false, false))
              && s.requestId == old(s.requestId) + 1
              && s.config.config == old(s.config.config)["cmd_status" := ClientConfig.Flag(reply.success)]
              && s.errors == old(s.errors) + (if reply.success then [] else [ErrorLine(CommitCommands.MsgServerError(reply.result))])
  {
    if !Truthy(s.lastCommitFile) {
      s.PerrorM(MsgNoCommit);
      return None;
    }
    var command := CommandForMode(s.mode);
    if command.None? {
      s.PerrorM(MsgWrongMode("apply-bts-cfg", s.mode));
      return None;
    }
    var rid := NextRequestId(s);
    req := Some(Request(command.value, rid, s.lastCommitFile.value, false, false));
    Record(s, reply);
  }

  /** `do_act_bts_cfg`: the checks of `apply-bts-cfg`, then the words of `arg` (standing for its
      shell split) must be `--skip` spellings, or the usage is logged and nothing is sent;
      otherwise the file is sent for activation, skipped when `--skip` was given. */
  method ActBtsCfg(s: CliSession, arg: string, reply: CommitCommands.Reply) returns (req: Option<Request>)
    requires s.config as object != s
    modifies s`errors, s`requestId, s.config
    ensures !Truthy(s.lastCommitFile) ==>
              req.None? && s.errors == old(s.errors) + [ErrorLine(MsgNoCommit)]
              && s.requestId == old(s.requestId) && s.config.config == old(s.config.config)
    ensures Truthy(s.lastCommitFile) && CommandForMode(s.mode).None? ==>
              req.None? && s.errors == old(s.errors) + [ErrorLine(MsgWrongMode("act-bts-cfg", s.mode))]
              && s.requestId == old(s.requestId) && s.config.config == old(s.config.config)
    ensures Truthy(s.lastCommitFile) && CommandForMode(s.mode).Some? && SkipArg(SplitWs(arg)).None? ==>
              req.None? && s.errors == old(s.errors) + [ErrorLine(MsgActUsage)]
              && s.requestId == old(s.requestId) && s.config.config == old(s.config.config)
    ensures Truthy(s.lastCommitFile) && CommandForMode(s.mode).Some? && SkipArg(SplitWs(arg)).Some? ==>
              req == Some(Request(CommandForMode(s.mode).value, old(s.requestId), s.lastCommitFile.value,
                                  SkipArg(SplitWs(arg)).value, true))
              && s.requestId == old(s.requestId) + 1
              && s.config.config == old(s.config.config)["cmd_status" := ClientConfig.Flag(reply.success)]
              && s.errors == old(s.errors) + (if reply.success then [] else [ErrorLine(CommitCommands.MsgServerError(reply.result))])
  {
    if !Truthy(s.lastCommitFile) {
      s.PerrorM(MsgNoCommit);
      return None;
    }
    var command := CommandForMode(s.mode);
    if command.None? {
      s.PerrorM(MsgWrongMode("act-bts-cfg", s.mode));
      return None;
    }
    var skip := SkipArg(SplitWs(arg));
    if skip.None? {
      s.PerrorM(MsgActUsage);
      return None;
    }
    var rid := NextRequestId(s);
    req := Some(Request(command.value, rid, s.lastCommitFile.value, skip.value, true));
    Record(s, reply);
  }

  /** Without arguments nothing is skipped; `--skip` and its prefixes skip; other words are refused. */
  lemma SkipArgForms(other: string)
    requires other !in SkipSpellings
    ensures SkipArg([]) == Some(false)
    ensures forall w :: w in SkipSpellings ==> SkipArg([w]) == Some(true)
    ensures SkipArg([other]).None? && SkipArg(["--skip", other]).None?
  {
    assert ["--skip", other][1..] == [other];
  }
}
