// The session setters of the configuration CLI (cli/common/mixins/set_commands.py): loading a
// template tree, the DU, RU and cell types, overlaying an RU template onto the rulebook, and two
// lookups over the session's inputs and tree.

module SetCommands {
  import opened Wrappers
  import opened Text
  import opened Tree
  import opened Session
  import ClientConfig
  import Rules
  import Schema
  import InitCli
  import TmplUtils

  // ----- set-cfg-scf -----

  const MsgCfgScfUsage := "usage: set-cfg-scf <file>"
  const MsgXmlParseFailed := "[client] XML parse failed"

  function MsgServerFailed(result: string): string
  {
    "[server] failed: " + result
  }

  /** `_clean_whitespace` on one text: whitespace-only text becomes None (here ""). */
  function CleanText(t: string): (r: string)
    ensures r == t || (IsBlank(t) && r == [])
    ensures IsBlank(r) ==> r == []
    ensures !IsBlank(t) ==> r == t
  {
    if Strip(t) == [] then [] else t
  }

  function CleanP(p: P): P
  {
    p.(text := CleanText(p.text))
  }

  function CleanPs(ps: seq<P>): (r: seq<P>)
    ensures |r| == |ps| && forall j :: 0 <= j < |ps| ==> r[j] == CleanP(ps[j])
  {
    seq(|ps|, j requires 0 <= j < |ps| => CleanP(ps[j]))
  }

  function CleanList(l: PList): PList
  {
    l.(bare := seq(|l.bare|, j requires 0 <= j < |l.bare| => CleanText(l.bare[j])),
       items := seq(|l.items|, j requires 0 <= j < |l.items| => CleanPs(l.items[j])))
  }

  function CleanMo(mo: MO): MO
  {
    mo.(params := CleanPs(mo.params), lists := seq(|mo.lists|, j requires 0 <= j < |mo.lists| => CleanList(mo.lists[j])))
  }

  /** `_clean_whitespace` over the whole tree: every `p` text, bare list value and item value.
      Element tails are not part of the tree model. */
  function CleanDoc(doc: CmData): CmData
  {
    doc.(mos := CleanMos(doc.mos))
  }

  function CleanMos(mos: seq<MO>): (r: seq<MO>)
    ensures |r| == |mos| && forall i :: 0 <= i < |mos| ==> r[i] == CleanMo(mos[i])
  {
    if mos == [] then [] else [CleanMo(mos[0])] + CleanMos(mos[1..])
  }

  /** Cleaning keeps every object and name and blanks out only whitespace-only texts. */
  lemma CleanDocShape(doc: CmData, i: nat, j: nat)
    requires i < |doc.mos| && j < |doc.mos[i].params|
    ensures SameSkeleton(doc, CleanDoc(doc))
    ensures var p := doc.mos[i].params[j];
            var q := CleanDoc(doc).mos[i].params[j];
            q.name == p.name && (q.text == p.text || (IsBlank(p.text) && q.text == []))
  {
  }

  lemma CleanPsTwice(ps: seq<P>)
    ensures CleanPs(CleanPs(ps)) == CleanPs(ps)
  {
  }

  lemma CleanMoTwice(mo: MO)
    ensures CleanMo(CleanMo(mo)) == CleanMo(mo)
  {
    var c := CleanMo(mo);
    CleanPsTwice(mo.params);
    forall m | 0 <= m < |c.lists| ensures CleanList(c.lists[m]) == c.lists[m] {
      var l := mo.lists[m];
      forall n | 0 <= n < |l.items| ensures CleanPs(CleanPs(l.items[n])) == CleanPs(l.items[n]) {
        CleanPsTwice(l.items[n]);
      }
    }
  }

  /** A second cleaning pass changes nothing. */
  lemma CleanDocTwice(doc: CmData)
    ensures CleanDoc(CleanDoc(doc)) == CleanDoc(doc)
  {
    forall k | 0 <= k < |doc.mos| ensures CleanMo(CleanMo(doc.mos[k])) == CleanMo(doc.mos[k]) {
      CleanMoTwice(doc.mos[k]);
    }
  }

  /** The loaded tree becomes both the live and the reference tree, and the command status is set. */
  method LoadTrees(s: CliSession, doc: CmData)
    modifies s`xml, s`refTree, s.config
    ensures s.xml == doc && s.refTree == doc
    ensures s.config.config == old(s.config.config)["cmd_status" := ClientConfig.Flag(true)]
  {
    s.xml := doc;
    s.refTree := doc;
    var _ := s.config.Set("cmd_status", ClientConfig.Flag(true));
  }

  /** What `do_set_cfg_scf` leaves, from the old trees, configuration and log: the new live tree,
      reference tree, configuration and log. An empty argument is refused; a reply that parses
      loads its cleaned document into both trees and sets `cmd_status`; one that does not parse
      is logged; a failed reply is logged and clears `cmd_status`. */
  function CfgScfAfter(arg: string, success: bool, result: string, parsed: Option<CmData>,
                       xml: CmData, ref: CmData, cfg: map<string, ClientConfig.Val>, errors: seq<string>)
    : (CmData, CmData, map<string, ClientConfig.Val>, seq<string>)
  {
    if Strip(arg) == [] then (xml, ref, cfg, errors + [ErrorLine(MsgCfgScfUsage)])
    else if success && parsed.Some? then
      (CleanDoc(parsed.value), CleanDoc(parsed.value), cfg["cmd_status" := ClientConfig.Flag(true)], errors)
    else if success then (xml, ref, cfg, errors + [ErrorLine(MsgXmlParseFailed)])
    else (xml, ref, cfg["cmd_status" := ClientConfig.Flag(false)], errors + [ErrorLine(MsgServerFailed(result))])
  }

  /** `do_set_cfg_scf`. `success`/`result` is the server's reply; `parsed` is the document the
      reply parses to, None when it does not parse. The live tree and the reference tree are set
      to the same cleaned document; as values they cannot share structure. */
  method SetCfgScf(s: CliSession, arg: string, success: bool, result: string, parsed: Option<CmData>)
    modifies s`xml, s`refTree, s`errors, s.config
    ensures (s.xml, s.refTree, s.config.config, s.errors)
            == CfgScfAfter(arg, success, result, parsed, old(s.xml), old(s.refTree), old(s.config.config), old(s.errors))
    ensures s.ruType == old(s.ruType)
  {
    var filename := Strip(arg);
    if filename == [] {
      s.PerrorM(MsgCfgScfUsage);
      return;
    }
    if success {
      if parsed.None? {
        s.PerrorM(MsgXmlParseFailed);
        return;
      }
      LoadTrees(s, CleanDoc(parsed.value));
    } else {
      var _ := s.config.Set("cmd_status", ClientConfig.Flag(false));
      s.PerrorM(MsgServerFailed(result));
    }
  }

  // ----- set-du-type -----

  const MsgDuUsage := "usage: set-du-type <FSMF | DU10 | DU20>"

  /** The DU type argument: exactly one word, one of the listed spellings, upper-cased. */
  function DuArg(tokens: seq<string>): (r: Option<string>)
    ensures r.Some? ==> |tokens| == 1 && r.value == Upper(tokens[0]) && r.value in {"DU10", "DU20", "FSMF"}
    ensures |tokens| == 1 && tokens[0] in {"DU10", "DU20", "FSMF"} ==> r == Some(tokens[0])
    ensures |tokens| != 1 ==> r.None?
  {
    if |tokens| == 1 && tokens[0] in ["du10", "du20", "DU10", "DU20", "fsmf", "FSMF"] then
      UpperOfChoice(tokens[0]);
      Some(Upper(tokens[0]))
    else None
  }

  lemma UpperOfChoice(t: string)
    requires t in ["du10", "du20", "DU10", "DU20", "fsmf", "FSMF"]
    ensures Upper(t) in {"DU10", "DU20", "FSMF"}
    ensures t in {"DU10", "DU20", "FSMF"} ==> Upper(t) == t
  {
    var w := if t == "du10" || t == "DU10" then "DU10" else if t == "du20" || t == "DU20" then "DU20" else "FSMF";
    forall k | 0 <= k < 4 ensures UpperChar(t[k]) == w[k] {
    }
    UpperPointwise(t, w);
  }

  /** Upper-casing gives `w` when it does so at every position. */
  lemma UpperPointwise(t: string, w: string)
    requires |t| == |w| && forall k :: 0 <= k < |t| ==> UpperChar(t[k]) == w[k]
    ensures Upper(t) == w
  {
  }

  /** A mixed-case spelling is not among the choices. */
  lemma DuArgRejectsMixedCase(t: string)
    requires t == "Du10"
    ensures DuArg([t]).None?
  {
    assert t[1] == 'u';
  }

  /** `load_mo_param_dict`'s file name */
  function SchemaFile(du: string, moVersion: string): string
  {
    Upper(du) + "_" + moVersion + "_mo_param_dict.json"
  }

  /** `do_set_du_type`. The words of `arg` stand for its shell split. `loadRulebook` and
      `loadSchema` are `load_from_server` for the rulebook and the schema dictionary: None when
      the fetch or the parse fails (it catches every exception), and then None is stored. */
  method SetDuType(s: CliSession, arg: string, loadRulebook: string -> Option<Rules.Rulebook>,
                   loadSchema: string -> Option<Schema.Dict>) returns (out: Outcome)
    modifies s`duType, s`rulebook, s`schema, s`errors
    ensures DuArg(SplitWs(arg)).None? ==>
              out == Done && s.errors == old(s.errors) + [ErrorLine(MsgDuUsage)]
              && s.duType == old(s.duType) && s.rulebook == old(s.rulebook) && s.schema == old(s.schema)
    ensures DuArg(SplitWs(arg)).Some? ==>
              var du := DuArg(SplitWs(arg)).value;
              var choice := InitCli.RulebookFile(s.mode, Some(du), s.ratType, s.moVersion);
              s.duType == Some(du)
              && (choice.Fails? ==> out == Raised(choice.kind) && s.rulebook == old(s.rulebook)
                                    && s.schema == old(s.schema) && s.errors == old(s.errors))
              && (choice.File? ==>
                    out == Done && s.rulebook == loadRulebook(choice.name)
                    && s.schema == loadSchema(SchemaFile(du, s.moVersion)) && s.errors == old(s.errors))
  {
    var du := DuArg(SplitWs(arg));
    if du.None? {
      s.PerrorM(MsgDuUsage);
      return Done;
    }
    out := ApplyDuType(s, du.value, loadRulebook, loadSchema);
  }

  /** `do_set_du_type` after its argument is accepted. The DU type is stored before the rulebook
      is chosen, so an unsupported combination raises with the new DU type kept. */
  method ApplyDuType(s: CliSession, du: string, loadRulebook: string -> Option<Rules.Rulebook>,
                     loadSchema: string -> Option<Schema.Dict>) returns (out: Outcome)
    modifies s`duType, s`rulebook, s`schema
    ensures var choice := InitCli.RulebookFile(s.mode, Some(du), s.ratType, s.moVersion);
            s.duType == Some(du)
            && (choice.Fails? ==> out == Raised(choice.kind) && s.rulebook == old(s.rulebook)
                                  && s.schema == old(s.schema))
            && (choice.File? ==>
                  out == Done && s.rulebook == loadRulebook(choice.name)
                  && s.schema == loadSchema(SchemaFile(du, s.moVersion)))
  {
    s.duType := Some(du);
    var choice := InitCli.RulebookFile(s.mode, s.duType, s.ratType, s.moVersion);
    if choice.Fails? {
      return Raised(choice.kind);
    }
    s.rulebook := loadRulebook(choice.name);
    s.schema := loadSchema(SchemaFile(du, s.moVersion));
    out := Done;
  }

  // ----- set-ru-type -----

  const MsgRuUsage := "usage: set-ru-type <RU_TYPE> [--band <850|2100|2600>]"
  const MsgRuLoadFailed := "[오류] RU type data load failed"
  const MsgBandIgnored := "[경고] RU type is not FHCG; --band ignored"
  const BandChoices: set<string> := {"850", "2100", "2600"}

  function MsgUnknownRu(ru: string): string
  {
    "[오류] unknown RU type: " + ru
  }

  function MsgUnknownMode(mode: Option<string>): string
  {
    "[오류] unknown CLI mode: " + Show(mode)
  }

  function MsgUnknownRat(rat: string): string
  {
    "[오류] unknown RAT type: " + rat
  }

  /** The parsed `set-ru-type` arguments */
  datatype RuArgs = RuArgs(ruType: string, band: Option<string>)

  /** The argument parser from word `i` on: one positional RU type and an optional
      `--band`/`-f` with one of the band choices (a repeated option keeps the last value). */
  function ParseRuFrom(tokens: seq<string>, i: nat, pos: Option<string>, band: Option<string>): (r: Option<RuArgs>)
    requires i <= |tokens|
    requires band.None? || band.value in BandChoices
    ensures r.Some? ==> r.value.band.None? || r.value.band.value in BandChoices
    ensures r.Some? ==> (pos.Some? && r.value.ruType == pos.value) || r.value.ruType in tokens[i..]
    decreases |tokens| - i
  {
    if i == |tokens| then
      if pos.Some? then Some(RuArgs(pos.value, band)) else None
    else if tokens[i] == "--band" || tokens[i] == "-f" then
      if i + 1 < |tokens| && tokens[i + 1] in BandChoices then ParseRuFrom(tokens, i + 2, pos, Some(tokens[i + 1]))
      else None
    else if |tokens[i]| > 0 && tokens[i][0] == '-' then None
    else if pos.Some? then None
    else
      var r := ParseRuFrom(tokens, i + 1, Some(tokens[i]), band);
      assert r.Some? && r.value.ruType != tokens[i] ==> r.value.ruType in tokens[i + 1..];
      r
  }

  function ParseRuArgs(tokens: seq<string>): (r: Option<RuArgs>)
    ensures r.Some? ==> r.value.band.None? || r.value.band.value in BandChoices
    ensures r.Some? ==> r.value.ruType in tokens
  {
    ParseRuFrom(tokens, 0, None, None)
  }

  /** A lone RU type, and an RU type followed by a band, parse as expected. */
  lemma {:induction false} ParseRuArgsForms(ru: string, band: string)
    requires ru != [] && ru[0] != '-' && band in BandChoices
    ensures ParseRuArgs([ru]) == Some(RuArgs(ru, None))
    ensures ParseRuArgs([ru, "--band", band]) == Some(RuArgs(ru, Some(band)))
    ensures ParseRuArgs(["-f", band, ru]) == Some(RuArgs(ru, Some(band)))
  {
    assert ru != "--band" && ru != "-f" by { assert ru[0] != '-'; }
    assert ParseRuFrom([ru], 1, Some(ru), None) == Some(RuArgs(ru, None));
    assert ParseRuFrom([ru, "--band", band], 1, Some(ru), None) == Some(RuArgs(ru, Some(band)));
    assert ParseRuFrom(["-f", band, ru], 2, None, Some(band)) == Some(RuArgs(ru, Some(band)));
  }

  /** What `do_set_ru_type` decides before its pipeline: rejected with a message, or the RU type
      and band option to store, and whether the band warning is printed. */
  datatype RuDecision = RuRejected(msg: string) | RuAccepted(ru: string, band: Option<string>, warn: bool)

  /** `prod` and `rmod` are the `value` maps of the two product tables, None when either
      could not be loaded or has no such entry. */
  function RuTypeDecision(args: RuArgs, prod: Option<map<string, string>>, rmod: Option<map<string, string>>): (r: RuDecision)
    ensures r.RuAccepted? <==> prod.Some? && rmod.Some? && Upper(Strip(args.ruType)) in prod.value.Keys + rmod.value.Keys
    ensures (prod.None? || rmod.None?) ==> r == RuRejected(MsgRuLoadFailed)
    ensures r.RuAccepted? ==> r.ru == Upper(Strip(args.ruType))
    ensures r.RuAccepted? && r.ru == "FHCG" ==> r.band == Some(if Truthy(args.band) then args.band.value else "850") && !r.warn
    ensures r.RuAccepted? && r.ru != "FHCG" ==> r.band.None? && (r.warn <==> Truthy(args.band))
  {
    var ru := Upper(Strip(args.ruType));
    if prod.None? || rmod.None? then RuRejected(MsgRuLoadFailed)
    else if ru !in prod.value.Keys + rmod.value.Keys then RuRejected(MsgUnknownRu(ru))
    else if ru == "FHCG" then RuAccepted(ru, Some(if args.band.Some? && args.band.value != "" then args.band.value else "850"), false)
    else RuAccepted(ru, None, args.band.Some? && args.band.value != "")
  }

  /** The 4G RU template: `nok_lte_ru_<RU>[_<band>].cli`, the band only for FHCG. */
  function RuTemplate4G(ru: string, band: Option<string>): (r: string)
    ensures StartsWith(r, "nok_lte_ru_" + ru) && EndsWith(r, ".cli")
    ensures ru != "FHCG" || band.None? ==> r == "nok_lte_ru_" + ru + ".cli"
  {
    var name := "nok_lte_ru_" + ru + (if ru == "FHCG" && band.Some? && band.value != "" then "_" + band.value else "");
    assert (name + ".cli")[..|"nok_lte_ru_" + ru|] == "nok_lte_ru_" + ru;
    assert (name + ".cli")[|name + ".cli"| - 4..] == ".cli";
    name + ".cli"
  }

  /** What `do_set_ru_type` leaves before its pipeline, from the old log, RU type and band option:
      the new ones and whether the pipeline runs. A refused argument or RU type is logged and
      nothing else changes; an accepted one stores the RU type and band option (with the band
      warning logged when due), and the pipeline runs exactly in cell mode, any other mode being
      logged. */
  function RuHeadAfter(arg: string, prod: Option<map<string, string>>, rmod: Option<map<string, string>>,
                       mode: Option<string>, errors: seq<string>, ru: Option<string>, band: Option<string>)
    : (seq<string>, Option<string>, Option<string>, bool)
  {
    match ParseRuArgs(SplitWs(arg))
    case None => (errors + [ErrorLine(MsgRuUsage)], ru, band, false)
    case Some(args) =>
      match RuTypeDecision(args, prod, rmod)
      case RuRejected(msg) => (errors + [ErrorLine(msg)], ru, band, false)
      case RuAccepted(r, b, warn) =>
        var go := mode == Some("cell");
        (errors + (if warn then [ErrorLine(MsgBandIgnored)] else []) + (if go then [] else [ErrorLine(MsgUnknownMode(mode))]),
         Some(r), b, go)
  }

  /** `do_set_ru_type` up to its pipeline: the arguments are parsed, the RU type checked against
      the two product tables and stored with its band option, and the mode checked. `go` says
      whether the cell-mode pipeline runs (`RuType.SetRuType` carries out the rest). */
  method AcceptRuType(s: CliSession, arg: string, prod: Option<map<string, string>>, rmod: Option<map<string, string>>)
    returns (go: bool)
    modifies s`ruType, s`bandOption, s`errors
    ensures (s.errors, s.ruType, s.bandOption, go)
            == RuHeadAfter(arg, prod, rmod, s.mode, old(s.errors), old(s.ruType), old(s.bandOption))
  {
    var args := ParseRuArgs(SplitWs(arg));
    if args.None? {
      s.PerrorM(MsgRuUsage);
      return false;
    }
    var d := RuTypeDecision(args.value, prod, rmod);
    if d.RuRejected? {
      s.PerrorM(d.msg);
      return false;
    }
    if d.warn {
      s.PerrorM(MsgBandIgnored);
    }
    assert s.errors == old(s.errors) + (if d.warn then [ErrorLine(MsgBandIgnored)] else []);
    s.bandOption := d.band;
    s.ruType := Some(d.ru);
    if s.mode != Some("cell") {
      s.PerrorM(MsgUnknownMode(s.mode));
      return false;
    }
    go := true;
    assert s.errors == s.errors + [];
  }

  const MsgRuTemplateFailed := "[오류] RU template load failed"

  /** The 4G step of `do_set_ru_type`: `fetched` is the text of template `RuTemplate4G` (None
      when it cannot be fetched), which overlays the rulebook. */
  method ApplyRuTemplate(s: CliSession, fetched: Option<string>)
    modifies s`rulebook, s`errors
    ensures (s.rulebook, s.errors) == TemplateAfter(MsgRuTemplateFailed, old(s.rulebook), old(s.errors), fetched, s.mode, s.duType)
  {
    if fetched.None? {
      s.PerrorM(MsgRuTemplateFailed);
      return;
    }
    var _ := UpdateRulebookFromTemplate(s, fetched.value);
  }

  // ----- _list_cell_types_for_current_ru -----

  const MsgListFailed := "[오류] cell-type listing failed"

  /** `fn[len(slice_prefix):-4]`, empty when the slice is */
  function NameSlice(fn: string, from: nat): string
  {
    if from <= |fn| - 4 then fn[from..|fn| - 4] else []
  }

  /** The names the comprehension collects, in directory order */
  function CellTypeNames(files: seq<string>, ru: string, du: string): (r: seq<string>)
    ensures forall y :: y in r <==> exists f :: f in files && StartsWith(f, "nok_5G_" + du + "_ru_" + ru + "_")
                                                 && EndsWith(f, ".cli") && y == NameSlice(f, |"nok_5G_" + du + "_ru_"|)
    decreases |files|
  {
    if files == [] then []
    else
      var f := files[|files| - 1];
      var t := CellTypeNames(files[..|files| - 1], ru, du);
      assert forall g :: g in files <==> g in files[..|files| - 1] || g == f by {
        assert files == files[..|files| - 1] + [f];
      }
      if StartsWith(f, "nok_5G_" + du + "_ru_" + ru + "_") && EndsWith(f, ".cli") then
        t + [NameSlice(f, |"nok_5G_" + du + "_ru_"|)]
      else t
  }

  /** A prefix ending in '_' and the suffix ".cli" cannot overlap. */
  lemma SuffixAfterUnderscore(f: string, prefix: string)
    requires StartsWith(f, prefix) && EndsWith(f, ".cli") && prefix != [] && prefix[|prefix| - 1] == '_'
    ensures |prefix| + 4 <= |f|
  {
    forall i | |f| - 4 <= i < |f| ensures f[i] != '_' {
      assert f[|f| - 4..][i - (|f| - 4)] == f[i];
    }
    assert f[..|prefix|][|prefix| - 1] == '_';
  }

  /** A collected name keeps the RU type at its head: the file name after the DU part, less ".cli". */
  lemma CellTypeNameShape(f: string, ru: string, du: string)
    requires StartsWith(f, "nok_5G_" + du + "_ru_" + ru + "_") && EndsWith(f, ".cli")
    ensures var slice := "nok_5G_" + du + "_ru_";
            slice + NameSlice(f, |slice|) + ".cli" == f && StartsWith(NameSlice(f, |slice|), ru + "_")
  {
    var slice := "nok_5G_" + du + "_ru_";
    var filter := slice + ru + "_";
    SuffixAfterUnderscore(f, filter);
    assert f == f[..|slice|] + f[|slice|..|f| - 4] + f[|f| - 4..];
    assert f[|slice|..|f| - 4][..|ru + "_"|] == f[..|filter|][|slice|..];
  }

  /** `_list_cell_types_for_current_ru`; `listing` is the template directory, None when it cannot
      be listed. */
  method ListCellTypes(s: CliSession, listing: Option<seq<string>>) returns (names: seq<string>)
    modifies s`errors
    ensures !Truthy(s.ruType) || !Truthy(s.duType) ==> names == [] && s.errors == old(s.errors)
    ensures Truthy(s.ruType) && Truthy(s.duType) && listing.None? ==>
              names == [] && s.errors == old(s.errors) + [ErrorLine(MsgListFailed)]
    ensures Truthy(s.ruType) && Truthy(s.duType) && listing.Some? ==>
              names == Rules.SortedDistinct(CellTypeNames(listing.value, s.ruType.value, s.duType.value))
              && s.errors == old(s.errors)
  {
    if !Truthy(s.ruType) || !Truthy(s.duType) {
      return [];
    }
    if listing.None? {
      s.PerrorM(MsgListFailed);
      return [];
    }
    var ru, du := s.ruType.value, s.duType.value;
    var files := listing.value;
    var filterPrefix := "nok_5G_" + du + "_ru_" + ru + "_";
    var slicePrefix := "nok_5G_" + du + "_ru_";
    var found: seq<string> := [];
    var i := 0;
    while i < |files|
      invariant 0 <= i <= |files| && found == CellTypeNames(files[..i], ru, du)
    {
      assert files[..i + 1][..i] == files[..i];
      if StartsWith(files[i], filterPrefix) && EndsWith(files[i], ".cli") {
        found := found + [NameSlice(files[i], |slicePrefix|)];
      }
      i := i + 1;
    }
    assert files[..i] == files;
    names := Rules.SortedDistinct(found);
  }

  // ----- set-cell-type -----

  const MsgCellOnly5G := "set-cell-type is only available on 5G"
  const MsgCellNeedsRu := "run set-ru-type first"
  const MsgCellNeedsDu := "DU type not decided yet; retry after set-ru-type"
  const MsgCellUsage := "usage: set-cell-type <RUVAR> | set-cell-type ?"
  const MsgNoCellTypes := "no cell-type list for this RU/DU combination"
  const MsgCellTemplateFailed := "[오류] cell-type template load failed"

  function MsgCellMismatch(ru: string, cell: string): string
  {
    "[오류] cell-type does not match the current RU(" + ru + "): " + cell
  }

  /** What `do_set_cell_type` does with its arguments */
  datatype CellChoice = CellRefused(msg: string) | ListOptions | CellPick(cell: string)

  function CellTypeChoice(ratType: string, ru: Option<string>, du: Option<string>, tokens: seq<string>): (r: CellChoice)
    ensures r.CellPick? ==> ratType == "5G" && Truthy(ru) && Truthy(du) && tokens != []
                            && r.cell == Upper(tokens[0]) && StartsWith(r.cell, ru.value + "_")
    ensures r.ListOptions? <==> ratType == "5G" && Truthy(ru) && Truthy(du) && tokens != [] && tokens[0] == "?"
    ensures ratType != "5G" ==> r == CellRefused(MsgCellOnly5G)
  {
    if ratType != "5G" then CellRefused(MsgCellOnly5G)
    else if !Truthy(ru) then CellRefused(MsgCellNeedsRu)
    else if !Truthy(du) then CellRefused(MsgCellNeedsDu)
    else if tokens == [] then CellRefused(MsgCellUsage)
    else if tokens[0] == "?" then ListOptions
    else
      var cell := Upper(tokens[0]);
      if !StartsWith(cell, ru.value + "_") then CellRefused(MsgCellMismatch(ru.value, cell)) else CellPick(cell)
  }

  /** The 5G cell template: `nok_5G_<DU>_ru_<CELL>.cli` */
  function CellTemplate(du: string, cell: string): string
  {
    "nok_5G_" + du + "_ru_" + cell + ".cli"
  }

  /** `do_set_cell_type`. `listing` is the template directory and `fetched` the text of the
      template the command asks for (None when it cannot be fetched). Returns the options the
      `?` form prints. */
  method SetCellType(s: CliSession, arg: string, listing: Option<seq<string>>, fetched: Option<string>)
    returns (options: seq<string>)
    modifies s`cellType, s`errors, s`rulebook
    ensures var c := CellTypeChoice(old(s.ratType), old(s.ruType), old(s.duType), SplitWs(Strip(arg)));
            (c.CellRefused? ==> options == [] && s.errors == old(s.errors) + [ErrorLine(c.msg)]
                                && s.cellType == old(s.cellType) && s.rulebook == old(s.rulebook))
            && (c.ListOptions? ==> s.cellType == old(s.cellType) && s.rulebook == old(s.rulebook)
                                   && CellOptionsShown(old(s.errors), s.errors, options, listing, s.ruType, s.duType))
            && (c.CellPick? ==> options == [] && s.cellType == Some(c.cell)
                                && (s.rulebook, s.errors) == TemplateAfter(MsgCellTemplateFailed, old(s.rulebook), old(s.errors), fetched, s.mode, s.duType))
  {
    options := [];
    var c := CellTypeChoice(s.ratType, s.ruType, s.duType, SplitWs(Strip(arg)));
    match c {
      case CellRefused(msg) =>
        s.PerrorM(msg);
      case ListOptions =>
        options := ShowCellTypes(s, listing);
      case CellPick(cell) =>
        PickCellType(s, cell, fetched);
    }
  }

  /** What `set-cell-type ?` leaves: the listed names sorted without duplicates, with a failed
      listing logged, and an empty list logged as having no cell types. */
  predicate CellOptionsShown(before: seq<string>, after: seq<string>, options: seq<string>,
                             listing: Option<seq<string>>, ru: Option<string>, du: Option<string>)
  {
    && options == (if listing.Some? && ru.Some? && du.Some? then Rules.SortedDistinct(CellTypeNames(listing.value, ru.value, du.value))
                   else [])
    && after == before + (if listing.None? then [ErrorLine(MsgListFailed)] else [])
                       + (if options == [] then [ErrorLine(MsgNoCellTypes)] else [])
  }

  /** What a fetched template does to the rulebook and the error log: the new ones. A failed
      fetch is logged with `failMsg`; otherwise the template overlays a loaded rulebook, and a
      failure of `_update_rulebook_from_template` is logged by its kind. */
  function TemplateAfter(failMsg: string, rb: Option<Rules.Rulebook>, errors: seq<string>, fetched: Option<string>,
                         mode: Option<string>, duType: Option<string>): (Option<Rules.Rulebook>, seq<string>)
  {
    if fetched.None? then (rb, errors + [ErrorLine(failMsg)])
    else
      var template := TmplUtils.TmplFold(SplitLines(fetched.value)).result;
      (if rb.Some? then Some(UpdateRulebook(rb.value, template)) else None,
       errors + TemplateErrors(rb.None? && template != map[], mode, duType))
  }

  /** The message `_update_rulebook_from_template` logs, if any: TypeError for a template with no
      rulebook, then ValueError for a mode other than cell or bts, then AttributeError for no DU
      type. */
  function TemplateErrors(noRulebook: bool, mode: Option<string>, duType: Option<string>): seq<string>
  {
    if noRulebook then [ErrorLine(MsgTemplateFailed("TypeError"))]
    else if mode != Some("cell") && mode != Some("bts") then [ErrorLine(MsgTemplateFailed("ValueError"))]
    else if duType.None? then [ErrorLine(MsgTemplateFailed("AttributeError"))]
    else []
  }

  /** The `?` form of `do_set_cell_type`, with its RU and DU types set. */
  method ShowCellTypes(s: CliSession, listing: Option<seq<string>>) returns (options: seq<string>)
    requires Truthy(s.ruType) && Truthy(s.duType)
    modifies s`errors
    ensures CellOptionsShown(old(s.errors), s.errors, options, listing, s.ruType, s.duType)
  {
    options := ListCellTypes(s, listing);
    if options == [] {
      s.PerrorM(MsgNoCellTypes);
    }
  }

  /** A cell type accepted by `do_set_cell_type`: stored, then its template applied. */
  method PickCellType(s: CliSession, cell: string, fetched: Option<string>)
    modifies s`cellType, s`errors, s`rulebook
    ensures s.cellType == Some(cell)
    ensures (s.rulebook, s.errors) == TemplateAfter(MsgCellTemplateFailed, old(s.rulebook), old(s.errors), fetched, s.mode, s.duType)
  {
    s.cellType := Some(cell);
    if fetched.None? {
      s.PerrorM(MsgCellTemplateFailed);
      return;
    }
    var _ := UpdateRulebookFromTemplate(s, fetched.value);
  }

  // ----- _update_rulebook_from_template -----

  /** The template's value replaces a scalar rule's value; a list rule keeps its children. */
  function OverlayEntry(e: Rules.RuleEntry, v: string): Rules.RuleEntry
  {
    match e
    case Scalar(_) => Rules.Scalar(Some(v))
    case ListRule(_) => e
  }

  /** Only keys the record already has take the template's value. */
  function OverlayRecord(rec: Rules.Record, vals: map<string, string>): (r: Rules.Record)
    ensures |r| == |rec|
    ensures forall j :: 0 <= j < |rec| ==> r[j].0 == rec[j].0
  {
    seq(|rec|, j requires 0 <= j < |rec| =>
      if rec[j].0 in vals then (rec[j].0, OverlayEntry(rec[j].1, vals[rec[j].0])) else rec[j])
  }

  /** Every id of a class-level entry; a distName entry is left as it is. */
  function OverlayTop(e: Rules.TopEntry, vals: map<string, string>): Rules.TopEntry
  {
    match e
    case ByClass(ids) => Rules.ByClass(seq(|ids|, j requires 0 <= j < |ids| => (ids[j].0, OverlayRecord(ids[j].1, vals))))
    case ByDist(_) => e
  }

  /** The overlay of a template (class → key → value) on the rulebook */
  function UpdateRulebook(rb: Rules.Rulebook, tmpl: map<string, map<string, string>>): (r: Rules.Rulebook)
    ensures r.Keys == rb.Keys
    ensures forall k :: k in rb && k !in tmpl ==> r[k] == rb[k]
  {
    map k | k in rb :: if k in tmpl then OverlayTop(rb[k], tmpl[k]) else rb[k]
  }

  /** For every id of a class the template names, a parameter the template sets and the record
      has takes the template's value if scalar; every other parameter, and every name, stays. */
  lemma UpdateRulebookEntry(rb: Rules.Rulebook, tmpl: map<string, map<string, string>>, cls: string, j: nat, m: nat)
    requires cls in rb && rb[cls].ByClass? && j < |rb[cls].ids| && m < |rb[cls].ids[j].1|
    ensures var r := UpdateRulebook(rb, tmpl);
            var before := rb[cls].ids[j];
            r[cls].ByClass? && |r[cls].ids| == |rb[cls].ids| && r[cls].ids[j].0 == before.0
            && |r[cls].ids[j].1| == |before.1| && r[cls].ids[j].1[m].0 == before.1[m].0
            && (cls in tmpl && before.1[m].0 in tmpl[cls] && before.1[m].1.Scalar? ==>
                  r[cls].ids[j].1[m].1 == Rules.Scalar(Some(tmpl[cls][before.1[m].0])))
            && (cls !in tmpl || before.1[m].0 !in tmpl[cls] || before.1[m].1.ListRule? ==>
                  r[cls].ids[j].1[m] == before.1[m])
  {
  }

  /** Overlaying the same template twice is overlaying it once. */
  lemma UpdateRulebookIdempotent(rb: Rules.Rulebook, tmpl: map<string, map<string, string>>)
    ensures UpdateRulebook(UpdateRulebook(rb, tmpl), tmpl) == UpdateRulebook(rb, tmpl)
  {
    var r := UpdateRulebook(rb, tmpl);
    forall k | k in r ensures k !in tmpl || OverlayTop(r[k], tmpl[k]) == r[k] {
      if k in tmpl && rb[k].ByClass? {
        var ids := r[k].ids;
        forall j | 0 <= j < |ids| ensures OverlayRecord(ids[j].1, tmpl[k]) == ids[j].1 {
          var rec := ids[j].1;
          assert forall m :: 0 <= m < |rec| ==> rec[m].0 in tmpl[k] ==> OverlayEntry(rec[m].1, tmpl[k][rec[m].0]) == rec[m].1;
        }
        assert OverlayTop(r[k], tmpl[k]).ids == ids;
      }
    }
  }

  /** The message of an exception `_update_rulebook_from_template` reports, by its kind */
  function MsgTemplateFailed(kind: string): string
  {
    "[오류] RU template parse failed: " + kind
  }

  /** The rulebook file `_update_rulebook_from_template` saves to */
  function SavedRulebookName(ratType: string, moVersion: string, du: string, mode: string): string
  {
    ratType + "_" + moVersion + "_rulebook_" + Lower(du) + "_" + mode + ".json"
  }

  /** `_update_rulebook_from_template` on the template's text. A loaded rulebook takes the
      overlay; with no rulebook (None) the first template class raises TypeError (`in None`), and
      an empty template goes on. The mode must then be cell or bts (ValueError) and the DU type
      set (AttributeError on `None.lower()`). Returns the file name the rulebook is saved under,
      its JSON being `s.rulebook`, `null` for None (writing it locally and to the server is not
      modelled). */
  method UpdateRulebookFromTemplate(s: CliSession, text: string) returns (saved: Option<string>)
    modifies s`rulebook, s`errors
    ensures var template := TmplUtils.TmplFold(SplitLines(text)).result;
            s.rulebook == (if old(s.rulebook).Some? then Some(UpdateRulebook(old(s.rulebook).value, template)) else None)
    ensures s.errors == old(s.errors)
                        + TemplateErrors(old(s.rulebook).None? && TmplUtils.TmplFold(SplitLines(text)).result != map[],
                                         s.mode, s.duType)
    ensures old(s.rulebook).None? && TmplUtils.TmplFold(SplitLines(text)).result != map[] ==>
              saved.None? && s.errors == old(s.errors) + [ErrorLine(MsgTemplateFailed("TypeError"))]
    ensures old(s.rulebook).Some? || TmplUtils.TmplFold(SplitLines(text)).result == map[] ==>
              && (s.mode != Some("cell") && s.mode != Some("bts") ==>
                    saved.None? && s.errors == old(s.errors) + [ErrorLine(MsgTemplateFailed("ValueError"))])
              && ((s.mode == Some("cell") || s.mode == Some("bts")) && s.duType.None? ==>
                    saved.None? && s.errors == old(s.errors) + [ErrorLine(MsgTemplateFailed("AttributeError"))])
              && ((s.mode == Some("cell") || s.mode == Some("bts")) && s.duType.Some? ==>
                    saved == Some(SavedRulebookName(s.ratType, s.moVersion, s.duType.value, s.mode.value))
                    && s.errors == old(s.errors))
  {
    var template := TmplUtils.LoadCliTemplateAsRule(SplitLines(text));
    if s.rulebook.Some? {
      s.rulebook := Some(UpdateRulebook(s.rulebook.value, template));
    } else if template != map[] {
      s.PerrorM(MsgTemplateFailed("TypeError"));
      return None;
    }
    if s.mode != Some("cell") && s.mode != Some("bts") {
      s.PerrorM(MsgTemplateFailed("ValueError"));
      return None;
    }
    if s.duType.None? {
      s.PerrorM(MsgTemplateFailed("AttributeError"));
      return None;
    }
    saved := Some(SavedRulebookName(s.ratType, s.moVersion, s.duType.value, s.mode.value));
  }

  // ----- _get_user_defined_lncel_ids -----

  /** `part.split("-")[1]` of a "LNCEL-..." segment: the text up to the next '-'. */
  lemma LncelSplit(part: string)
    requires StartsWith(part, "LNCEL-")
    ensures |Split(part, "-")| >= 2
    ensures Split(part, "-")[1] == Split(part[6..], "-")[0]
    ensures !Contains(Split(part, "-")[1], "-")
  {
    assert part[..6] == "LNCEL-";
    NoOccurrenceBefore(part, "-", 5);
    assert OccursAt(part, "-", 5) by { assert part[5..6] == "-"; }
    FirstOccurrence(part, "-", 5);
    SplitPiecesFree(part, "-");
  }

  /** The ids of the "LNCEL-<id>" segments, in order */
  function LncelIdsOfParts(parts: seq<string>): (r: seq<string>)
    ensures |r| <= |parts|
    decreases |parts|
  {
    if parts == [] then []
    else
      var p := parts[|parts| - 1];
      var t := LncelIdsOfParts(parts[..|parts| - 1]);
      if StartsWith(p, "LNCEL-") then LncelSplit(p); t + [Split(p, "-")[1]] else t
  }

  /** Every collected id comes from a segment "LNCEL-<id>..." and holds no '-'. */
  lemma {:induction false} LncelIdsOfPartsFrom(parts: seq<string>, k: nat)
    requires k < |LncelIdsOfParts(parts)|
    ensures exists p :: p in parts && StartsWith(p, "LNCEL-") && StartsWith(p, "LNCEL-" + LncelIdsOfParts(parts)[k])
    ensures !Contains(LncelIdsOfParts(parts)[k], "-")
    decreases |parts|
  {
    var p := parts[|parts| - 1];
    var init := parts[..|parts| - 1];
    var t := LncelIdsOfParts(init);
    if k < |t| {
      LncelIdsOfPartsFrom(init, k);
      var q :| q in init && StartsWith(q, "LNCEL-") && StartsWith(q, "LNCEL-" + t[k]);
      assert q in parts;
    } else {
      LncelIdPrefix(p);
    }
  }

  /** The id of a "LNCEL-<id>..." segment follows its "LNCEL-" and holds no '-'. */
  lemma LncelIdPrefix(p: string)
    requires StartsWith(p, "LNCEL-")
    ensures |Split(p, "-")| >= 2
    ensures StartsWith(p, "LNCEL-" + Split(p, "-")[1]) && !Contains(Split(p, "-")[1], "-")
  {
    LncelSplit(p);
    var id := Split(p, "-")[1];
    var pre, rest := p[..6], p[6..];
    SplitHead(rest, "-");
    assert p == pre + rest;
    assert pre == "LNCEL-";
    PrefixThen(pre, rest, id);
  }

  /** A prefix of the rest, after the head, is a prefix of the whole. */
  lemma PrefixThen(pre: string, rest: string, id: string)
    requires StartsWith(rest, id)
    ensures StartsWith(pre + rest, pre + id)
  {
    assert (pre + rest)[..|pre| + |id|] == pre + rest[..|id|];
  }

  /** The LNCEL ids of the created objects, in creation order */
  function UserLncelIds(inputs: seq<UserInput>): (r: seq<string>)
    decreases |inputs|
  {
    if inputs == [] then []
    else
      var e := inputs[|inputs| - 1];
      var t := UserLncelIds(inputs[..|inputs| - 1]);
      if e.MoCreate? && Contains(e.dn, "LNCEL-") then t + LncelIdsOfParts(Split(e.dn, "/")) else t
  }

  /** `_get_user_defined_lncel_ids` */
  method GetUserDefinedLncelIds(s: CliSession) returns (ids: seq<string>)
    ensures ids == UserLncelIds(s.userInputs)
  {
    ids := [];
    var inputs := s.userInputs;
    var i := 0;
    while i < |inputs|
      invariant 0 <= i <= |inputs| && ids == UserLncelIds(inputs[..i])
    {
      assert inputs[..i + 1][..i] == inputs[..i];
      var e := inputs[i];
      if e.MoCreate? && Contains(e.dn, "LNCEL-") {
        var parts := Split(e.dn, "/");
        var found: seq<string> := [];
        var j := 0;
        while j < |parts|
          invariant 0 <= j <= |parts| && found == LncelIdsOfParts(parts[..j])
        {
          assert parts[..j + 1][..j] == parts[..j];
          if StartsWith(parts[j], "LNCEL-") {
            LncelSplit(parts[j]);
            found := found + [Split(parts[j], "-")[1]];
          }
          j := j + 1;
        }
        assert parts[..j] == parts;
        ids := ids + found;
      }
      i := i + 1;
    }
    assert inputs[..i] == inputs;
  }

  // ----- _find_antl_dist -----

  /** "/RMOD-<r>/ANTL-<p>" */
  function AntlSuffix(rmodId: int, portId: int): string
  {
    "/RMOD-" + IntToString(rmodId) + "/ANTL-" + IntToString(portId)
  }

  predicate IsAntlOf(mo: MO, suffix: string)
  {
    EndsWith(mo.cls, "ANTL") && EndsWith(mo.dn, suffix)
  }

  /** Index of the first ANTL object under that radio module and port */
  function FirstAntl(mos: seq<MO>, suffix: string): (r: Option<nat>)
    ensures r.Some? ==> r.value < |mos| && IsAntlOf(mos[r.value], suffix)
    ensures r.Some? ==> forall j :: 0 <= j < r.value ==> !IsAntlOf(mos[j], suffix)
    ensures r.None? ==> forall j :: 0 <= j < |mos| ==> !IsAntlOf(mos[j], suffix)
    decreases |mos|
  {
    if mos == [] then None
    else if IsAntlOf(mos[0], suffix) then Some(0)
    else
      var rest := FirstAntl(mos[1..], suffix);
      assert forall j :: 1 <= j < |mos| ==> mos[j] == mos[1..][j - 1];
      if rest.None? then None else Some(rest.value + 1)
  }

  /** `_find_antl_dist`: the distName of the first ANTL object ending in "/RMOD-r/ANTL-p". */
  method FindAntlDist(s: CliSession, rmodId: int, portId: int) returns (dist: Option<string>)
    ensures dist.None? <==> FirstAntl(s.xml.mos, AntlSuffix(rmodId, portId)).None?
    ensures dist.Some? ==> dist.value == s.xml.mos[FirstAntl(s.xml.mos, AntlSuffix(rmodId, portId)).value].dn
                           && EndsWith(dist.value, AntlSuffix(rmodId, portId))
  {
    var target := AntlSuffix(rmodId, portId);
    var mos := s.xml.mos;
    var i := 0;
    while i < |mos|
      invariant 0 <= i <= |mos|
      invariant forall j :: 0 <= j < i ==> !IsAntlOf(mos[j], target)
    {
      if EndsWith(mos[i].cls, "ANTL") && EndsWith(mos[i].dn, target) {
        return Some(mos[i].dn);
      }
      i := i + 1;
    }
    return None;
  }
}
