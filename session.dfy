// The editing session of the configuration CLI (cli/core/config/init_cli.py): its settings,
// the catalogs it was given, and the navigation state the tree commands move through.

module Session {
  import opened Wrappers
  import Tree
  import Schema
  import Rules
  import Formula
  import ClientConfig

  /** One entry of `param_dict`: a formula (already read into its parts) and a default. */
  datatype FormulaEntry = FormulaEntry(formula: Formula.Formula, default: Option<string>)

  /** `param_dict`: keyed by the `::`-separated pieces of the catalog key, normally (class, name). */
  type FormulaDict = map<seq<string>, FormulaEntry>

  /** One entry of `user_inputs`. */
  datatype UserInput =
    | MoCreate(dn: string)
    | SetInput(tail: string, key: string, value: string)
    | SetListInput(tail: string, list: string, index: string, key: string, value: string)

  /** How a command ends: normally, or by an exception that leaves the command (its kind). */
  datatype Outcome = Done | Raised(kind: string)

  /** The navigation state and the tree: everything the tree commands change. `matchTail` is ""
      where the Python session holds None; `lastTrmodId` is None while the attribute does not exist. */
  datatype Nav = Nav(
    btsId: Option<string>,
    matchTail: string,
    moClass: Option<string>,
    stack: seq<string>,
    doc: Tree.CmData,
    inputs: seq<UserInput>,
    errors: seq<string>,
    lastTrmodId: Option<string>)

  /** What the tree commands only read. A `None` catalog is one that was never loaded. */
  datatype Ctx = Ctx(
    ratType: string,
    moVersion: string,
    mode: Option<string>,
    duType: Option<string>,
    ruType: Option<string>,
    iotLncelId: Option<string>,
    schema: Option<Schema.Dict>,
    rulebook: Option<Rules.Rulebook>)

  /** The state after a command, and how the command ended */
  datatype Step = Step(st: Nav, out: Outcome)

  /** Same position in the tree: root id, path and prompt stack */
  predicate SamePlace(a: Nav, b: Nav)
  {
    a.btsId == b.btsId && a.matchTail == b.matchTail && a.stack == b.stack
  }

  /** A line of the error log: `perror` prints its message with the "[오류] " prefix. */
  function ErrorLine(msg: string): string { "[오류] " + msg }

  /** `perror`: the message is kept with its "[오류] " prefix. */
  function Perror(n: Nav, msg: string): (r: Nav)
    ensures r.errors == n.errors + [ErrorLine(msg)]
    ensures r == n.(errors := r.errors)
  {
    n.(errors := n.errors + [ErrorLine(msg)])
  }

  /** Python truthiness of an optional string */
  predicate Truthy(v: Option<string>) { v.Some? && v.value != "" }

  /** `str(v)` of an optional string: None prints as "None". */
  function Show(v: Option<string>): string
  {
    if v.Some? then v.value else "None"
  }

  class CliSession {
    // settings
    var allowCommitDiff: bool
    var moVersion: string
    var ratType: string
    const config: ClientConfig.ConfigManager
    var mode: Option<string>
    var killDummyFlag: Option<bool>
    var requestId: int
    var iotLncelId: Option<string>
    var lastScriptLine: Option<string>
    var envType: string
    // radio and cell types
    var ruType: Option<string>
    var duType: Option<string>
    var cellType: Option<string>
    var bandOption: Option<string>
    var sector3: bool
    // navigation and trees
    var moClass: Option<string>
    var btsId: Option<string>
    var matchTail: string
    var xml: Tree.CmData
    var refTree: Tree.CmData
    var templateTree: Tree.CmData
    var promptStack: seq<string>
    var userInputs: seq<UserInput>
    var lastCommitFile: Option<string>
    var lastTrmodId: Option<string>
    var taskKey: Option<string>
    // catalogs
    var paramDict: FormulaDict
    var schema: Option<Schema.Dict>
    var rulebook: Option<Rules.Rulebook>
    var errors: seq<string>

    /** The session as `__init__` leaves it. The environment's ENV_TYPE (default "DEV") and the
        loaded formula catalog are inputs. */
    constructor(allowCommitDiff: bool, moVersion: string, ratType: string,
                config: ClientConfig.ConfigManager, iotLncelId: Option<string>, mode: Option<string>,
                envType: string, paramDict: FormulaDict)
      ensures this.allowCommitDiff == allowCommitDiff && this.moVersion == moVersion
      ensures this.ratType == ratType && this.config == config && this.mode == mode
      ensures this.iotLncelId == iotLncelId && this.envType == envType && this.paramDict == paramDict
      ensures killDummyFlag.None? && requestId == 1 && lastScriptLine.None?
      ensures ruType.None? && duType.None? && cellType.None? && bandOption.None? && !sector3
      ensures moClass.None? && btsId.None? && matchTail == ""
      ensures xml == Tree.EmptyDoc && refTree == Tree.EmptyDoc && templateTree == Tree.EmptyDoc
      ensures promptStack == ["config"] && userInputs == [] && lastCommitFile.None?
      ensures lastTrmodId.None? && taskKey.None?
      ensures schema.None? && rulebook.None? && errors == []
    {
      this.allowCommitDiff := allowCommitDiff;
      this.moVersion := moVersion;
      this.ratType := ratType;
      this.config := config;
      this.mode := mode;
      killDummyFlag := None;
      requestId := 1;
      this.iotLncelId := iotLncelId;
      lastScriptLine := None;
      this.envType := envType;
      ruType, duType, cellType, bandOption := None, None, None, None;
      sector3 := false;
      moClass, btsId, matchTail := None, None, "";
      xml, refTree, templateTree := Tree.EmptyDoc, Tree.EmptyDoc, Tree.EmptyDoc;
      promptStack := ["config"];
      userInputs := [];
      lastCommitFile := None;
      lastTrmodId, taskKey := None, None;
      this.paramDict := paramDict;
      schema, rulebook := None, None;
      errors := [];
    }

    /** The part of the session the tree commands change */
    function NavState(): Nav
      reads this
    {
      Nav(btsId, matchTail, moClass, promptStack, xml, userInputs, errors, lastTrmodId)
    }

    /** The part of the session the tree commands read */
    function CtxState(): Ctx
      reads this
    {
      Ctx(ratType, moVersion, mode, duType, ruType, iotLncelId, schema, rulebook)
    }

    /** Write a navigation state back into the fields. */
    method SetNav(n: Nav)
      modifies this`btsId, this`matchTail, this`moClass, this`promptStack
      modifies this`xml, this`userInputs, this`errors, this`lastTrmodId
      ensures NavState() == n
    {
      btsId, matchTail, moClass, promptStack := n.btsId, n.matchTail, n.moClass, n.stack;
      xml, userInputs, errors, lastTrmodId := n.doc, n.inputs, n.errors, n.lastTrmodId;
    }

    /** `perror` on the session */
    method PerrorM(msg: string)
      modifies this`errors
      ensures errors == old(errors) + [ErrorLine(msg)]
      ensures NavState() == Perror(old(NavState()), msg)
    {
      errors := errors + [ErrorLine(msg)];
    }
  }
}
