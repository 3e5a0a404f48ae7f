// `do_set_ru_type` as a whole (cli/common/mixins/set_commands.py): the RU type is checked and
// stored (`SetCommands.AcceptRuType`); in cell mode the station configuration is downloaded and
// generated (admincli and set commands), the DU type is derived from the SMOD object
// (`AdminCliCommands`), and on 4G the RU template overlays the rulebook. The server's replies and
// fetched files are parameters.

module RuType {
  import opened Wrappers
  import opened Tree
  import opened Session
  import ClientConfig
  import Rules
  import Schema
  import SetCommands
  import AdminCliCommands
  import CommitCommands

  /** `do_set_ru_type`. `prod`/`rmod` are the two product tables, `dnload` the reply to the
      download, `scf`/`parsed` the reply to `set-cfg-scf genScf` and the document it parses to,
      `table` the product map the DU type is read from, `loadRulebook`/`loadSchema` the
      catalogs `set-du-type` loads, and `fetched` the text of the 4G RU template. Returns the
      name of the template the 4G branch fetches. The ghost results are the log after the
      argument checks, after `set-cfg-scf` and after the DU type is derived, and the rulebook at
      that point. */
  method SetRuType(s: CliSession, arg: string, prod: Option<map<string, string>>, rmod: Option<map<string, string>>,
                   dnload: CommitCommands.Reply, scf: CommitCommands.Reply, parsed: Option<CmData>,
                   table: seq<(string, string)>, loadRulebook: string -> Option<Rules.Rulebook>,
                   loadSchema: string -> Option<Schema.Dict>, fetched: Option<string>)
    returns (template: Option<string>, ghost go: bool, ghost headLog: seq<string>, ghost scfLog: seq<string>,
             ghost duLog: seq<string>, ghost duRulebook: Option<Rules.Rulebook>)
    modifies s`ruType, s`bandOption, s`errors, s`xml, s`refTree, s.config, s`duType, s`rulebook, s`schema
    ensures (headLog, s.ruType, s.bandOption, go)
            == SetCommands.RuHeadAfter(arg, prod, rmod, s.mode, old(s.errors), old(s.ruType), old(s.bandOption))
    ensures !go ==> template.None? && s.errors == headLog && s.xml == old(s.xml) && s.refTree == old(s.refTree)
                    && s.config.config == old(s.config.config) && s.duType == old(s.duType)
                    && s.rulebook == old(s.rulebook) && s.schema == old(s.schema)
    ensures go ==> Stage(s.xml, s.refTree, s.config.config, scfLog, duLog, s.duType, duRulebook, s.schema)
                   == DeriveAfter("genScf", dnload, scf, parsed, table, s.ratType, s.mode, s.moVersion, loadRulebook, loadSchema,
                                  old(s.xml), old(s.refTree), old(s.config.config), headLog, old(s.duType),
                                  old(s.rulebook), old(s.schema))
    ensures go ==> s.ruType.Some?
                   && (template, s.rulebook, s.errors)
                      == RatAfter(s.ratType, s.ruType, s.bandOption, fetched, s.mode, s.duType, duRulebook, duLog)
  {
    template := None;
    var ok := SetCommands.AcceptRuType(s, arg, prod, rmod);
    go, headLog := ok, s.errors;
    scfLog, duLog, duRulebook := s.errors, s.errors, s.rulebook;
    if !ok {
      return;
    }
    template, scfLog, duLog, duRulebook := CellPipeline(s, "genScf", dnload, scf, parsed, table, loadRulebook, loadSchema, fetched);
  }

  /** The cell-mode part of `do_set_ru_type`, once the RU type is stored: the configuration is
      downloaded and generated and the DU type derived (`Derive`), then the RAT step runs from the
      log and rulebook that leaves. */
  method CellPipeline(s: CliSession, gen: string, dnload: CommitCommands.Reply, scf: CommitCommands.Reply, parsed: Option<CmData>,
                      table: seq<(string, string)>, loadRulebook: string -> Option<Rules.Rulebook>,
                      loadSchema: string -> Option<Schema.Dict>, fetched: Option<string>)
    returns (template: Option<string>, ghost scfLog: seq<string>, ghost duLog: seq<string>,
             ghost duRulebook: Option<Rules.Rulebook>)
    requires s.ruType.Some?
    modifies s`errors, s`xml, s`refTree, s.config, s`duType, s`rulebook, s`schema
    ensures Stage(s.xml, s.refTree, s.config.config, scfLog, duLog, s.duType, duRulebook, s.schema)
            == DeriveAfter(gen, dnload, scf, parsed, table, s.ratType, s.mode, s.moVersion, loadRulebook, loadSchema,
                           old(s.xml), old(s.refTree), old(s.config.config), old(s.errors), old(s.duType),
                           old(s.rulebook), old(s.schema))
    ensures (template, s.rulebook, s.errors)
            == RatAfter(s.ratType, s.ruType, s.bandOption, fetched, s.mode, s.duType, duRulebook, duLog)
  {
    scfLog := Derive(s, gen, dnload, scf, parsed, table, loadRulebook, loadSchema);
    duLog, duRulebook := s.errors, s.rulebook;
    template := RatStep(s, fetched);
  }

  /** The parts of the session the cell-mode pipeline sets up to the DU type: the trees, the
      configuration, the log after `set-cfg-scf` (`scfLog`) and after the DU type is derived
      (`errors`), the DU type, the rulebook and the schema. */
  datatype Stage = Stage(xml: CmData, ref: CmData, cfg: map<string, ClientConfig.Val>, scfLog: seq<string>,
                         errors: seq<string>, du: Option<string>, rb: Option<Rules.Rulebook>,
                         sch: Option<Schema.Dict>)

  /** The cell-mode pipeline up to the DU type, from the session before it: the download reply
      is recorded (`cmd_status`, a refusal logged), then `set-cfg-scf genScf` runs, then the DU
      type is derived from the tree it leaves. */
  function DeriveAfter(gen: string, dnload: CommitCommands.Reply, scf: CommitCommands.Reply, parsed: Option<CmData>,
                       table: seq<(string, string)>, rat: string, mode: Option<string>, moVersion: string,
                       loadRulebook: string -> Option<Rules.Rulebook>, loadSchema: string -> Option<Schema.Dict>,
                       xml: CmData, ref: CmData, cfg: map<string, ClientConfig.Val>, errors: seq<string>,
                       du: Option<string>, rb: Option<Rules.Rulebook>, sch: Option<Schema.Dict>): Stage
  {
    var cfg1 := cfg["cmd_status" := ClientConfig.Flag(dnload.success)];
    var dnLog := errors + (if dnload.success then [] else [ErrorLine(CommitCommands.MsgServerError(dnload.result))]);
    var g := SetCommands.CfgScfAfter(gen, scf.success, scf.result, parsed, xml, ref, cfg1, dnLog);
    var d := AdminCliCommands.DuFromSmodAfter(g.0.mos, table, rat, mode, moVersion, loadRulebook, loadSchema,
                                              g.3, du, rb, sch);
    Stage(g.0, g.1, g.2, g.3, d.0, d.1, d.2, d.3)
  }

  /** The RAT step of `do_set_ru_type`, from the rulebook and log the DU step left: the template
      it fetches and the new rulebook and log. On 4G the RU template is named after the RU type
      and band option and overlays the rulebook as `SetCommands.TemplateAfter` says; on 5G
      nothing changes; any other RAT is logged. */
  function RatAfter(rat: string, ru: Option<string>, band: Option<string>, fetched: Option<string>,
                    mode: Option<string>, du: Option<string>, rb: Option<Rules.Rulebook>, errors: seq<string>)
    : (Option<string>, Option<Rules.Rulebook>, seq<string>)
    requires rat == "4G" ==> ru.Some?
  {
    if rat == "4G" then
      var after := SetCommands.TemplateAfter(SetCommands.MsgRuTemplateFailed, rb, errors, fetched, mode, du);
      (Some(SetCommands.RuTemplate4G(ru.value, band)), after.0, after.1)
    else if rat == "5G" then (None, rb, errors)
    else (None, rb, errors + [ErrorLine(SetCommands.MsgUnknownRat(rat))])
  }

  /** The download, `set-cfg-scf genScf` and the DU type derivation. */
  method Derive(s: CliSession, gen: string, dnload: CommitCommands.Reply, scf: CommitCommands.Reply, parsed: Option<CmData>,
                table: seq<(string, string)>, loadRulebook: string -> Option<Rules.Rulebook>,
                loadSchema: string -> Option<Schema.Dict>)
    returns (ghost scfLog: seq<string>)
    modifies s`errors, s`xml, s`refTree, s.config, s`duType, s`rulebook, s`schema
    ensures Stage(s.xml, s.refTree, s.config.config, scfLog, s.errors, s.duType, s.rulebook, s.schema)
            == DeriveAfter(gen, dnload, scf, parsed, table, s.ratType, s.mode, s.moVersion, loadRulebook, loadSchema,
                           old(s.xml), old(s.refTree), old(s.config.config), old(s.errors), old(s.duType),
                           old(s.rulebook), old(s.schema))
    ensures s.ruType == old(s.ruType)
  {
    ghost var xml, ref, cfg, errors := s.xml, s.refTree, s.config.config, s.errors;
    ghost var du, rb, sch := s.duType, s.rulebook, s.schema;
    AdminCliCommands.Record(s, dnload);
    ghost var cfg1, dnLog := s.config.config, s.errors;
    SetCommands.SetCfgScf(s, gen, scf.success, scf.result, parsed);
    ghost var g := (s.xml, s.refTree, s.config.config, s.errors);
    scfLog := s.errors;
    AdminCliCommands.SetDuTypeFromSmod(s, table, loadRulebook, loadSchema);
    ghost var d := (s.errors, s.duType, s.rulebook, s.schema);
    assert s.xml == g.0 && s.refTree == g.1 && s.config.config == g.2;
    DeriveAfterOf(gen, dnload, scf, parsed, table, s.ratType, s.mode, s.moVersion, loadRulebook, loadSchema,
                  xml, ref, cfg, errors, du, rb, sch, cfg1, dnLog, g, d);
  }

  /** `DeriveAfter` read off the three stages: the recorded download, the `set-cfg-scf` result
      `g` and the DU derivation `d` on the tree `g` leaves. */
  lemma DeriveAfterOf(gen: string, dnload: CommitCommands.Reply, scf: CommitCommands.Reply, parsed: Option<CmData>,
                      table: seq<(string, string)>, rat: string, mode: Option<string>, moVersion: string,
                      loadRulebook: string -> Option<Rules.Rulebook>, loadSchema: string -> Option<Schema.Dict>,
                      xml: CmData, ref: CmData, cfg: map<string, ClientConfig.Val>, errors: seq<string>,
                      du: Option<string>, rb: Option<Rules.Rulebook>, sch: Option<Schema.Dict>,
                      cfg1: map<string, ClientConfig.Val>, dnLog: seq<string>,
                      g: (CmData, CmData, map<string, ClientConfig.Val>, seq<string>),
                      d: (seq<string>, Option<string>, Option<Rules.Rulebook>, Option<Schema.Dict>))
    requires cfg1 == cfg["cmd_status" := ClientConfig.Flag(dnload.success)]
    requires dnLog == errors + (if dnload.success then [] else [ErrorLine(CommitCommands.MsgServerError(dnload.result))])
    requires g == SetCommands.CfgScfAfter(gen, scf.success, scf.result, parsed, xml, ref, cfg1, dnLog)
    requires d == AdminCliCommands.DuFromSmodAfter(g.0.mos, table, rat, mode, moVersion, loadRulebook, loadSchema,
                                                   g.3, du, rb, sch)
    ensures DeriveAfter(gen, dnload, scf, parsed, table, rat, mode, moVersion, loadRulebook, loadSchema,
                        xml, ref, cfg, errors, du, rb, sch)
            == Stage(g.0, g.1, g.2, g.3, d.0, d.1, d.2, d.3)
  {
  }

  /** The RAT branch at the end of `do_set_ru_type`. It touches only the rulebook and the log. */
  method RatStep(s: CliSession, fetched: Option<string>) returns (template: Option<string>)
    requires s.ratType == "4G" ==> s.ruType.Some?
    modifies s`errors, s`rulebook
    ensures (template, s.rulebook, s.errors)
            == RatAfter(s.ratType, s.ruType, s.bandOption, fetched, s.mode, s.duType, old(s.rulebook), old(s.errors))
    ensures s.xml == old(s.xml) && s.refTree == old(s.refTree) && s.config.config == old(s.config.config)
            && s.duType == old(s.duType) && s.schema == old(s.schema)
    ensures s.ratType == old(s.ratType) && s.mode == old(s.mode) && s.moVersion == old(s.moVersion)
  {
    template := None;
    if s.ratType == "4G" {
      template := Some(SetCommands.RuTemplate4G(s.ruType.value, s.bandOption));
      SetCommands.ApplyRuTemplate(s, fetched);
    } else if s.ratType != "5G" {
      s.PerrorM(SetCommands.MsgUnknownRat(s.ratType));
    }
  }
}
