// The auto-commissioning variant of the configuration session (cli/core/config_x/autoComm_cli.py):
// fixed starting settings, and commands that set the release, RAT, mode and diff permission
// directly instead of deriving them from a station.

module AutoCommCli {
  import opened Wrappers
  import opened Text
  import opened Session
  import ClientConfig

  const MsgVersionUsage := "usage: set-mo-version <version>"
  const MsgRatChoices := "supported RAT: 4G, 5G"
  const MsgModeChoices := "supported modes: bts, cell, mod"

  /** A new auto-comm session: bts mode, 4G, release 24R2, commit diffs allowed, no IoT cell id.
      `envType` and `paramDict` stand for the environment variable and the catalog loaded at start. */
  method NewAutoComm(config: ClientConfig.ConfigManager, envType: string, paramDict: FormulaDict)
    returns (s: CliSession)
    ensures fresh(s)
    ensures s.mode == Some("bts") && s.ratType == "4G" && s.moVersion == "24R2" && s.allowCommitDiff
    ensures s.iotLncelId.None? && s.config == config && s.paramDict == paramDict
    ensures s.promptStack == ["config"] && s.btsId.None? && s.userInputs == [] && s.errors == []
  {
    s := new CliSession(true, "24R2", "4G", config, None, Some("bts"), envType, paramDict);
  }

  /** The version `set-mo-version` stores: the stripped argument, unless it is empty. */
  function VersionArg(arg: string): (r: Option<string>)
    ensures r.Some? <==> Strip(arg) != ""
    ensures r.Some? ==> r.value == Strip(arg) && VersionArg(r.value) == r
  {
    StripIdempotent(arg);
    if Strip(arg) == "" then None else Some(Strip(arg))
  }

  /** `do_set_mo_version`; `fetched` is the formula catalog the server returns for the new release. */
  method SetMoVersion(s: CliSession, arg: string, fetched: FormulaDict)
    modifies s`moVersion, s`paramDict, s`errors
    ensures VersionArg(arg).None? ==>
              s.NavState() == Perror(old(s.NavState()), MsgVersionUsage)
              && s.moVersion == old(s.moVersion) && s.paramDict == old(s.paramDict)
    ensures VersionArg(arg).Some? ==>
              s.moVersion == VersionArg(arg).value && s.paramDict == fetched && s.errors == old(s.errors)
  {
    var version := VersionArg(arg);
    if version.None? {
      s.PerrorM(MsgVersionUsage);
      return;
    }
    s.moVersion := version.value;
    s.paramDict := fetched;
  }

  /** The RAT `set-rat-type` stores: the stripped, upper-cased argument when it is 4G or 5G. */
  function RatArg(arg: string): (r: Option<string>)
    ensures r.Some? <==> Upper(Strip(arg)) == "4G" || Upper(Strip(arg)) == "5G"
    ensures r.Some? ==> r.value == Upper(Strip(arg)) && (r.value == "4G" || r.value == "5G")
  {
    var rat := Upper(Strip(arg));
    if rat == "4G" || rat == "5G" then Some(rat) else None
  }

  /** `do_set_rat_type`: an unsupported RAT leaves the session unchanged apart from the error. */
  method SetRatType(s: CliSession, arg: string)
    modifies s`ratType, s`errors
    ensures RatArg(arg).None? ==> s.NavState() == Perror(old(s.NavState()), MsgRatChoices) && s.ratType == old(s.ratType)
    ensures RatArg(arg).Some? ==> s.ratType == RatArg(arg).value && s.errors == old(s.errors)
  {
    var rat := RatArg(arg);
    if rat.None? {
      s.PerrorM(MsgRatChoices);
      return;
    }
    s.ratType := rat.value;
  }

  /** The mode `set-mode` stores: the stripped, lower-cased argument when it is bts, cell or mod. */
  function ModeArg(arg: string): (r: Option<string>)
    ensures r.Some? <==> Lower(Strip(arg)) in {"bts", "cell", "mod"}
    ensures r.Some? ==> r.value == Lower(Strip(arg)) && r.value in {"bts", "cell", "mod"}
  {
    var mode := Lower(Strip(arg));
    if mode in {"bts", "cell", "mod"} then Some(mode) else None
  }

  /** `do_set_mode` */
  method SetMode(s: CliSession, arg: string)
    modifies s`mode, s`errors
    ensures ModeArg(arg).None? ==> s.NavState() == Perror(old(s.NavState()), MsgModeChoices) && s.mode == old(s.mode)
    ensures ModeArg(arg).Some? ==> s.mode == ModeArg(arg) && s.errors == old(s.errors)
  {
    var mode := ModeArg(arg);
    if mode.None? {
      s.PerrorM(MsgModeChoices);
      return;
    }
    s.mode := mode;
  }

  /** `do_set_allow_commit_diff`: diffs are allowed exactly when the argument reads "true";
      any other text, including a typo, forbids them. */
  method SetAllowCommitDiff(s: CliSession, arg: string)
    modifies s`allowCommitDiff
    ensures s.allowCommitDiff <==> Lower(Strip(arg)) == "true"
  {
    s.allowCommitDiff := Lower(Strip(arg)) == "true";
  }
}
