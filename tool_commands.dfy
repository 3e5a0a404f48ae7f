// The tool commands of the configuration CLI (cli/common/mixins/tool_commands.py): the line
// handling of `exec-script` and the conversion of a rulebook XML into its JSON dictionary.

module ToolCommands {
  import opened Wrappers
  import opened Text
  import opened Tree
  import opened Session
  import Formula

  // ----- exec-script -----

  const MsgExecUsage := "usage: exec-script <file>"
  const BtsPlaceholder := "LNBTS 000"

  function MsgNoScript(path: string): string
  {
    "[오류] script file does not exist: " + path
  }

  /** The directory the script is read from, below the working directory. */
  function ScriptDir(envType: string): seq<string>
  {
    if envType == "DEV" then ["cli", "data", "scripts"] else ["scripts"]
  }

  /** A path written out with "/" between its parts. */
  function PathText(path: seq<string>): string
  {
    Join(path, "/")
  }

  /** The script line as dispatched: stripped, and in bts mode with a BTS id the placeholder
      BTS is replaced by that id everywhere on the line. */
  function PrepareLine(raw: string, mode: Option<string>, btsId: Option<string>): (r: string)
    ensures !(mode == Some("bts") && Truthy(btsId)) ==> r == Strip(raw)
    ensures !Contains(Strip(raw), BtsPlaceholder) ==> r == Strip(raw)
  {
    var line := Strip(raw);
    if mode == Some("bts") && Truthy(btsId) && Contains(line, BtsPlaceholder) then
      ReplaceAll(line, BtsPlaceholder, "LNBTS " + btsId.value)
    else line
  }

  /** A placeholder on the line becomes the live BTS id (the first one, and the rest likewise). */
  lemma PrepareLineSubstitutes(raw: string, h: string, t: string, id: string)
    requires Strip(raw) == h + BtsPlaceholder + t && 'L' !in h && id != ""
    ensures PrepareLine(raw, Some("bts"), Some(id))
            == h + "LNBTS " + id + ReplaceAll(t, BtsPlaceholder, "LNBTS " + id)
  {
    PlaceholderOccurs(h, t);
    PrepareLineReplaces(raw, h + BtsPlaceholder + t, id);
    PlaceholderLead(h);
    ReplaceLead(h, BtsPlaceholder, "LNBTS " + id, t);
  }

  lemma PrepareLineReplaces(raw: string, line: string, id: string)
    requires Strip(raw) == line && Contains(line, BtsPlaceholder) && id != ""
    ensures PrepareLine(raw, Some("bts"), Some(id)) == ReplaceAll(line, BtsPlaceholder, "LNBTS " + id)
  {
  }

  lemma PlaceholderLead(h: string)
    requires 'L' !in h
    ensures BtsPlaceholder[0] !in h
  {
  }

  lemma PlaceholderOccurs(h: string, t: string)
    ensures Contains(h + BtsPlaceholder + t, BtsPlaceholder)
  {
    var line := h + BtsPlaceholder + t;
    assert line[|h|..|h| + |BtsPlaceholder|] == BtsPlaceholder;
    assert OccursAt(line, BtsPlaceholder, |h|);
  }

  /** `cmd.replace('-', '_')`: the handler name of a command word. */
  function HandlerName(cmd: string): string
  {
    ReplaceAll(cmd, "-", "_")
  }

  /** What one kept line turns into: a call of a known handler with the normalised command
      word, or the line itself handed to `default`. */
  datatype ScriptAction =
    | RunCommand(line: string)
    | RunDefault(line: string)

  /** A prepared line: skipped when blank or a comment, else dispatched on its first word. */
  function LineAction(line: string, known: set<string>): (r: Option<ScriptAction>)
    ensures r.None? <==> line == [] || line[0] == '#' || SplitWs(line) == []
    ensures r.Some? && r.value.RunDefault? ==> r.value.line == line && HandlerName(SplitWs(line)[0]) !in known
    ensures r.Some? && r.value.RunCommand? ==>
              HandlerName(SplitWs(line)[0]) in known
              && r.value.line == Join([HandlerName(SplitWs(line)[0])] + SplitWs(line)[1..], " ")
  {
    if line == [] || line[0] == '#' then None
    else
      var tokens := SplitWs(line);
      if tokens == [] then None
      else
        var cmd := HandlerName(tokens[0]);
        if cmd in known then Some(RunCommand(Join([cmd] + tokens[1..], " "))) else Some(RunDefault(line))
  }

  /** What each line of a script turns into. */
  function LineActions(lines: seq<string>, mode: Option<string>, btsId: Option<string>, known: set<string>): (r: seq<Option<ScriptAction>>)
    ensures |r| == |lines|
    ensures forall k :: 0 <= k < |lines| ==> r[k] == LineAction(PrepareLine(lines[k], mode, btsId), known)
  {
    seq(|lines|, k requires 0 <= k < |lines| => LineAction(PrepareLine(lines[k], mode, btsId), known))
  }

  /** The actions of a script, in order. */
  function ScriptPlan(lines: seq<string>, mode: Option<string>, btsId: Option<string>, known: set<string>): seq<ScriptAction>
  {
    Somes(LineActions(lines, mode, btsId, known))
  }

  /** `last_script_line` after one line: the prepared line, unless it is blank or a comment. */
  function KeptStep(prev: Option<string>, raw: string, mode: Option<string>, btsId: Option<string>): (r: Option<string>)
    ensures r == prev || (r.Some? && r.value != [] && r.value[0] != '#')
  {
    var line := PrepareLine(raw, mode, btsId);
    if line == [] || line[0] == '#' then prev else Some(line)
  }

  /** `last_script_line` after the script: the last line that was not blank or a comment. */
  function LastKept(prev: Option<string>, lines: seq<string>, mode: Option<string>, btsId: Option<string>): (r: Option<string>)
    ensures r == prev || (r.Some? && r.value != [] && r.value[0] != '#')
  {
    if lines == [] then prev
    else KeptStep(LastKept(prev, lines[..|lines| - 1], mode, btsId), lines[|lines| - 1], mode, btsId)
  }

  /** One more line extends the plan by its action and moves `last_script_line` by one step. */
  lemma PlanSnoc(lines: seq<string>, i: nat, mode: Option<string>, btsId: Option<string>, known: set<string>, prev: Option<string>)
    requires i < |lines|
    ensures var a := LineAction(PrepareLine(lines[i], mode, btsId), known);
            ScriptPlan(lines[..i + 1], mode, btsId, known)
            == ScriptPlan(lines[..i], mode, btsId, known) + (if a.Some? then [a.value] else [])
    ensures LastKept(prev, lines[..i + 1], mode, btsId) == KeptStep(LastKept(prev, lines[..i], mode, btsId), lines[i], mode, btsId)
  {
    assert lines[..i + 1][..i] == lines[..i];
    var es := LineActions(lines[..i + 1], mode, btsId, known);
    assert es[..i] == LineActions(lines[..i], mode, btsId, known);
  }

  /** An action is in the plan exactly when some line of the script gives it. */
  lemma ScriptPlanMembers(lines: seq<string>, mode: Option<string>, btsId: Option<string>, known: set<string>, a: ScriptAction)
    ensures a in ScriptPlan(lines, mode, btsId, known)
            <==> exists k :: 0 <= k < |lines| && LineAction(PrepareLine(lines[k], mode, btsId), known) == Some(a)
  {
    var es := LineActions(lines, mode, btsId, known);
    SomesMembers(es, a);
    if exists k :: 0 <= k < |lines| && LineAction(PrepareLine(lines[k], mode, btsId), known) == Some(a) {
      var k :| 0 <= k < |lines| && LineAction(PrepareLine(lines[k], mode, btsId), known) == Some(a);
      assert es[k] == Some(a);
    }
  }

  /** One line of the error log per accumulated error, each with its time stamp. */
  function LogLines(errs: seq<string>, stamp: nat -> string): (r: seq<string>)
    ensures |r| == |errs|
    ensures forall i :: 0 <= i < |errs| ==> r[i] == "[" + stamp(i) + "] " + errs[i]
  {
    seq(|errs|, i requires 0 <= i < |errs| => "[" + stamp(i) + "] " + errs[i])
  }

  /** The error log text; None when there is nothing to write. */
  method ErrorLog(errs: seq<string>, stamp: nat -> string) returns (log: Option<string>)
    ensures log.None? <==> errs == []
    ensures log.Some? ==> log.value == Join(LogLines(errs, stamp), "\n")
  {
    if errs == [] {
      return None;
    }
    var lines: seq<string> := [];
    var i := 0;
    while i < |errs|
      invariant 0 <= i <= |errs| && lines == LogLines(errs[..i], stamp)
    {
      lines := lines + ["[" + stamp(i) + "] " + errs[i]];
      i := i + 1;
    }
    assert errs[..i] == errs;
    return Some(Join(lines, "\n"));
  }

  /** The lines of a script, in order: the actions to dispatch and the last kept line. */
  method RunScript(s: CliSession, lines: seq<string>, known: set<string>) returns (plan: seq<ScriptAction>)
    modifies s`lastScriptLine
    ensures plan == ScriptPlan(lines, s.mode, s.btsId, known)
    ensures s.lastScriptLine == LastKept(old(s.lastScriptLine), lines, s.mode, s.btsId)
  {
    plan := [];
    var mode, btsId, last := s.mode, s.btsId, s.lastScriptLine;
    var i := 0;
    while i < |lines|
      invariant 0 <= i <= |lines|
      invariant plan == ScriptPlan(lines[..i], mode, btsId, known)
      invariant last == LastKept(old(s.lastScriptLine), lines[..i], mode, btsId)
    {
      PlanSnoc(lines, i, mode, btsId, known, old(s.lastScriptLine));
      var line := PrepareLine(lines[i], mode, btsId);
      if line != [] && line[0] != '#' {
        last := Some(line);
        var action := LineAction(line, known);
        if action.Some? {
          plan := plan + [action.value];
        }
      }
      i := i + 1;
    }
    assert lines[..i] == lines;
    s.lastScriptLine := last;
  }

  /** The text of the file at `path`, or None when there is no such file */
  function Read(files: map<seq<string>, string>, path: seq<string>): (r: Option<string>)
    ensures r.Some? <==> path in files
  {
    if path in files then Some(files[path]) else None
  }

  /** `do_exec_script`: the script directory's files are `scripts`, by path; the
      returned plan is what is handed, line by line, to the handlers or to `default`, and the log
      is what goes to the error-log file. */
  method ExecScript(s: CliSession, arg: string, scripts: map<seq<string>, string>, known: set<string>, stamp: nat -> string)
    returns (plan: seq<ScriptAction>, log: Option<string>)
    modifies s`errors, s`lastScriptLine
    ensures Strip(arg) == [] ==>
              plan == [] && log.None? && s.errors == old(s.errors) + [ErrorLine(MsgExecUsage)]
              && s.lastScriptLine == old(s.lastScriptLine)
    ensures Strip(arg) != [] && Read(scripts, ScriptDir(s.envType) + [Strip(arg)]).None? ==>
              plan == [] && log.None? && s.lastScriptLine == old(s.lastScriptLine)
              && s.errors == old(s.errors) + [ErrorLine(MsgNoScript(PathText(ScriptDir(s.envType) + [Strip(arg)])))]
    ensures Strip(arg) != [] && Read(scripts, ScriptDir(s.envType) + [Strip(arg)]).Some? ==>
              var lines := SplitLines(Read(scripts, ScriptDir(s.envType) + [Strip(arg)]).value);
              plan == ScriptPlan(lines, s.mode, s.btsId, known)
              && s.lastScriptLine == LastKept(old(s.lastScriptLine), lines, s.mode, s.btsId)
              && s.errors == old(s.errors)
              && (log.None? <==> s.errors == []) && (log.Some? ==> log.value == Join(LogLines(s.errors, stamp), "\n"))
  {
    var filename := Strip(arg);
    plan, log := [], None;
    if filename == [] {
      s.PerrorM(MsgExecUsage);
      return;
    }
    var path := ScriptDir(s.envType) + [filename];
    var text := Read(scripts, path);
    if text.None? {
      s.PerrorM(MsgNoScript(PathText(path)));
      return;
    }
    plan, log := RunScriptText(s, text.value, known, stamp);
  }

  /** The found script run line by line, and the error log written after it. */
  method RunScriptText(s: CliSession, text: string, known: set<string>, stamp: nat -> string)
    returns (plan: seq<ScriptAction>, log: Option<string>)
    modifies s`lastScriptLine
    ensures plan == ScriptPlan(SplitLines(text), s.mode, s.btsId, known)
    ensures s.lastScriptLine == LastKept(old(s.lastScriptLine), SplitLines(text), s.mode, s.btsId)
    ensures (log.None? <==> s.errors == []) && (log.Some? ==> log.value == Join(LogLines(s.errors, stamp), "\n"))
  {
    plan := RunScript(s, SplitLines(text), known);
    log := ErrorLog(s.errors, stamp);
  }

  // ----- rulebook-to-dict -----

  const MsgRuleUsage := "usage: rulebook-to-dict <XML file>"
  const MsgRuleParseFailed := "[오류] XML parse failed"
  const DefaultId := "__default__"

  function MsgNoRuleXml(path: string): string
  {
    "XML file does not exist: " + path
  }

  /** A child element of a rulebook object, in document order. A `list` keeps its `item`
      blocks, or else the texts of its bare `p`s; every other element is read as a parameter.
      A missing name or text is "". */
  datatype RuleChild =
    | RuleParam(name: string, text: string, cliopt: string)
    | RuleList(name: string, bare: seq<string>, items: seq<seq<P>>)

  datatype RuleMo = RuleMo(cls: string, dn: string, children: seq<RuleChild>)

  /** One converted value with its flags. */
  datatype Leaf = Leaf(req: int, ishow: int, soam: int, value: string)

  datatype Converted =
    | Scalar(leaf: Leaf)
    | ListOf(children: seq<map<string, Leaf>>)

  /** The JSON written out: the parameters by class tail and object id, and again by distName. */
  datatype RuleJson = RuleJson(byClass: map<string, map<string, map<string, Converted>>>,
                               byDist: map<string, map<string, Converted>>)

  /** A text as stored: "0" when missing, otherwise stripped. */
  function TextValue(t: string): (r: string)
    ensures t == [] ==> r == "0"
    ensures t != [] ==> r == Strip(t)
  {
    if t == [] then "0" else Strip(t)
  }

  // The object id: the first match of `<class>-(\d+)` in the distName.

  predicate IdMatchAt(dn: string, pat: string, k: nat)
  {
    k + |pat| < |dn| && dn[k..k + |pat|] == pat && IsDigitChar(dn[k + |pat|])
  }

  function FirstIdMatch(dn: string, pat: string, i: nat): (r: Option<nat>)
    ensures r.Some? ==> i <= r.value && IdMatchAt(dn, pat, r.value)
    ensures r.Some? ==> forall j :: i <= j < r.value ==> !IdMatchAt(dn, pat, j)
    ensures r.None? ==> forall j :: i <= j ==> !IdMatchAt(dn, pat, j)
    decreases |dn| - i
  {
    if i + |pat| >= |dn| then None
    else if IdMatchAt(dn, pat, i) then Some(i)
    else FirstIdMatch(dn, pat, i + 1)
  }

  /** The end of the run of digits starting at `j`. */
  function DigitEnd(s: string, j: nat): (r: nat)
    requires j <= |s|
    ensures j <= r <= |s|
    ensures forall k :: j <= k < r ==> IsDigitChar(s[k])
    ensures r < |s| ==> !IsDigitChar(s[r])
    decreases |s| - j
  {
    if j == |s| || !IsDigitChar(s[j]) then j else DigitEnd(s, j + 1)
  }

  /** The id of an object: the longest run of digits after the first `<class>-` followed by a
      digit, or "__default__" when there is none. */
  function MoId(base: string, dn: string): (r: string)
    ensures FirstIdMatch(dn, base + "-", 0).None? <==> r == DefaultId
    ensures FirstIdMatch(dn, base + "-", 0).Some? ==>
              var k := FirstIdMatch(dn, base + "-", 0).value + |base| + 1;
              IsDigits(r) && k + |r| <= |dn| && dn[k..k + |r|] == r
              && (k + |r| == |dn| || !IsDigitChar(dn[k + |r|]))
  {
    var pat := base + "-";
    match FirstIdMatch(dn, pat, 0)
    case None => DefaultId
    case Some(k) =>
      var r := dn[k + |pat|..DigitEnd(dn, k + |pat|)];
      assert !IsDigitChar(DefaultId[0]);
      r
  }

  /** The flags of a parameter. */
  datatype Flags = Flags(req: int, ishow: int, soam: int)

  const DefaultFlags := Flags(0, 0, 1)

  /** A flag value: "true" is 1, "false" is 0, an integer is itself, anything else 0. */
  function OptValue(v: string): (r: int)
    ensures v == "true" ==> r == 1
    ensures v == "false" ==> r == 0
    ensures v != "true" && v != "false" && ParseInt(v).Some? ==> r == ParseInt(v).value
    ensures v != "true" && v != "false" && ParseInt(v).None? ==> r == 0
  {
    if v == "true" then 1
    else if v == "false" then 0
    else ParseInt(v).GetOr(0)
  }

  /** One `k=v` entry; None stands for the ValueError of an entry with more than one `=`. */
  function ApplyOpt(fl: Flags, entry: string): (r: Option<Flags>)
    ensures r.None? <==> Contains(entry, "=") && |Split(entry, "=")| != 2
    ensures r.Some? && !(Contains(entry, "=") && Strip(Split(entry, "=")[0]) in {"req", "ishow", "soam"}) ==> r == Some(fl)
  {
    if !Contains(entry, "=") then Some(fl)
    else
      var parts := Split(entry, "=");
      if |parts| != 2 then None
      else
        var k := Strip(parts[0]);
        var v := OptValue(Lower(Strip(parts[1])));
        if k == "req" then Some(fl.(req := v))
        else if k == "ishow" then Some(fl.(ishow := v))
        else if k == "soam" then Some(fl.(soam := v))
        else Some(fl)
  }

  function ApplyOpts(fl: Flags, entries: seq<string>): Option<Flags>
    decreases |entries|
  {
    if entries == [] then Some(fl)
    else
      match ApplyOpt(fl, entries[0])
      case None => None
      case Some(f) => ApplyOpts(f, entries[1..])
  }

  /** The flags of a `cliopt` attribute: comma-separated `k=v` entries over the defaults. */
  function CliFlags(cliopt: string): Option<Flags>
  {
    if cliopt == [] then Some(DefaultFlags) else ApplyOpts(DefaultFlags, Split(cliopt, ","))
  }

  /** A single entry sets the flag it names to the value it reads as. */
  lemma CliFlagsSingle(k: string, v: string)
    requires k in {"req", "ishow", "soam"} && '=' !in v && ',' !in v
    ensures var x := OptValue(Lower(Strip(v)));
            CliFlags(k + "=" + v) == Some(if k == "req" then DefaultFlags.(req := x)
                                          else if k == "ishow" then DefaultFlags.(ishow := x)
                                          else DefaultFlags.(soam := x))
  {
    var e := k + "=" + v;
    assert ',' !in e;
    SplitFree(e, ',');
    ApplyOptPair(DefaultFlags, k, v);
    var f := ApplyOpt(DefaultFlags, e).value;
    assert [e][1..] == [];
    assert ApplyOpts(DefaultFlags, [e]) == ApplyOpts(f, []);
    assert CliFlags(e) == ApplyOpts(DefaultFlags, [e]);
  }

  lemma ApplyOptPair(fl: Flags, k: string, v: string)
    requires k in {"req", "ishow", "soam"} && '=' !in v
    ensures var x := OptValue(Lower(Strip(v)));
            ApplyOpt(fl, k + "=" + v) == Some(if k == "req" then fl.(req := x)
                                              else if k == "ishow" then fl.(ishow := x)
                                              else fl.(soam := x))
  {
    SplitPair(k, v);
    StripKeyword(k);
  }

  lemma SplitPair(k: string, v: string)
    requires '=' !in k && '=' !in v
    ensures Split(k + "=" + v, "=") == [k, v] && Contains(k + "=" + v, "=")
  {
    var e := k + "=" + v;
    SplitSnoc(k, '=', v);
    SplitFree(k, '=');
    assert e[|k|..|k| + 1] == "=";
    assert OccursAt(e, "=", |k|);
  }

  lemma StripKeyword(k: string)
    requires k in {"req", "ishow", "soam"}
    ensures Strip(k) == k
  {
    assert !IsSpace(k[0]) && !IsSpace(k[|k| - 1]);
    LStripNoop(k);
    RStripNoop(k);
  }

  /** An entry with more than one `=` aborts the whole conversion. */
  lemma CliFlagsTwoEquals(e: string)
    requires ',' !in e && Contains(e, "=") && |Split(e, "=")| > 2
    ensures CliFlags(e).None?
  {
    SplitFree(e, ',');
  }

  /** The formula a parameter is read with: the entry for `<class>__<id>` first, then the entry
      for the class alone unless the id is "__default__". An unrecognised formula is none. */
  function FormulaFor(pd: FormulaDict, base: string, id: string, name: string): (r: Option<Formula.Formula>)
    ensures r.Some? ==> r.value.Linear?
    ensures [base + "__" + id, name] in pd && pd[[base + "__" + id, name]].formula.Linear? ==>
              r == Some(pd[[base + "__" + id, name]].formula)
    ensures [base + "__" + id, name] !in pd && id != DefaultId && [base, name] in pd && pd[[base, name]].formula.Linear? ==>
              r == Some(pd[[base, name]].formula)
    ensures r.Some? ==> ([base + "__" + id, name] in pd && r.value == pd[[base + "__" + id, name]].formula)
                        || ([base + "__" + id, name] !in pd && id != DefaultId && [base, name] in pd && r.value == pd[[base, name]].formula)
  {
    var k1 := [base + "__" + id, name];
    var entry := if k1 in pd then Some(pd[k1]) else if id != DefaultId && [base, name] in pd then Some(pd[[base, name]]) else None;
    if entry.Some? && entry.value.formula.Linear? then Some(entry.value.formula) else None
  }

  /** The stored value of a text with a formula: decoded twice. */
  function Decoded(value: string, f: Option<Formula.Formula>, showFloat: real -> string): string
  {
    if f.Some? then Formula.ClientReverse(Formula.ClientReverse(value, f.value, showFloat), f.value, showFloat) else value
  }

  /** What `parse_param` gives for one child element. */
  datatype ParamOutcome =
    | Aborted
    | Skipped
    | Stored(name: string, conv: Converted)

  /** A scalar parameter: its flags, and its value masked as "***" when required, unless a
      formula applies, in which case the twice-decoded original text is stored. */
  function ConvertParam(name: string, text: string, cliopt: string, base: string, id: string,
                        pd: FormulaDict, showFloat: real -> string): (r: ParamOutcome)
    ensures r.Skipped? <==> name == []
    ensures r.Aborted? <==> name != [] && CliFlags(cliopt).None?
    ensures r.Stored? ==>
              var fl := CliFlags(cliopt).value;
              var f := FormulaFor(pd, base, id, name);
              r.name == name && r.conv.Scalar? && r.conv.leaf.req == fl.req && r.conv.leaf.ishow == fl.ishow
              && r.conv.leaf.soam == fl.soam
              && (f.None? && fl.req == 1 ==> r.conv.leaf.value == "***")
              && (f.None? && fl.req != 1 ==> r.conv.leaf.value == TextValue(text))
              && (f.Some? ==> r.conv.leaf.value == Decoded(TextValue(text), f, showFloat))
  {
    if name == [] then Skipped
    else
      match CliFlags(cliopt)
      case None => Aborted
      case Some(fl) =>
        var valueText := TextValue(text);
        var masked := if fl.req == 1 then "***" else valueText;
        var f := FormulaFor(pd, base, id, name);
        var value := if f.Some? then Decoded(valueText, f, showFloat) else masked;
        Stored(name, Scalar(Leaf(fl.req, fl.ishow, fl.soam, value)))
  }

  /** One `item` of a list: each `p` keyed on its name, the later one winning. */
  function ItemBlock(item: seq<P>, base: string, id: string, pd: FormulaDict, showFloat: real -> string): (r: map<string, Leaf>)
    ensures r == map[] <==> item == []
    ensures forall j :: 0 <= j < |item| ==> item[j].name in r
  {
    if item == [] then map[]
    else
      var n := |item| - 1;
      var p := item[n];
      var init := ItemBlock(item[..n], base, id, pd, showFloat);
      assert forall j :: 0 <= j < n ==> item[..n][j] == item[j];
      var r := init[p.name := Leaf(0, 0, 1, Decoded(TextValue(p.text), FormulaFor(pd, base, id, p.name), showFloat))];
      assert p.name in r;
      r
  }

  /** The block of each item, None for an item without parameters. */
  function ItemOptions(items: seq<seq<P>>, base: string, id: string, pd: FormulaDict, showFloat: real -> string): (r: seq<Option<map<string, Leaf>>>)
    ensures |r| == |items|
    ensures forall j :: 0 <= j < |items| ==> r[j] == if items[j] == [] then None else Some(ItemBlock(items[j], base, id, pd, showFloat))
  {
    seq(|items|, j requires 0 <= j < |items| => if items[j] == [] then None else Some(ItemBlock(items[j], base, id, pd, showFloat)))
  }

  /** The non-empty blocks of the items, in order. */
  function ItemBlocks(items: seq<seq<P>>, base: string, id: string, pd: FormulaDict, showFloat: real -> string): seq<map<string, Leaf>>
  {
    Somes(ItemOptions(items, base, id, pd, showFloat))
  }

  /** A list parameter: one child block per item with at least one `p`, or, without items, one
      `{"val": …}` child per bare `p`. */
  function ConvertList(bare: seq<string>, items: seq<seq<P>>, base: string, id: string,
                       pd: FormulaDict, showFloat: real -> string): (r: Converted)
    ensures r.ListOf?
    ensures items == [] ==> (|r.children| == |bare|
              && forall j :: 0 <= j < |bare| ==> r.children[j] == map["val" := Leaf(0, 0, 1, TextValue(bare[j]))])
    ensures items != [] ==> r.children == ItemBlocks(items, base, id, pd, showFloat)
  {
    if items != [] then ListOf(ItemBlocks(items, base, id, pd, showFloat))
    else ListOf(seq(|bare|, j requires 0 <= j < |bare| => map["val" := Leaf(0, 0, 1, TextValue(bare[j]))]))
  }

  /** The child blocks are exactly the blocks of the items that have parameters; none is empty. */
  lemma ItemBlocksMembers(items: seq<seq<P>>, base: string, id: string, pd: FormulaDict, showFloat: real -> string, b: map<string, Leaf>)
    ensures b in ItemBlocks(items, base, id, pd, showFloat)
            <==> exists j :: 0 <= j < |items| && items[j] != [] && b == ItemBlock(items[j], base, id, pd, showFloat)
    ensures b in ItemBlocks(items, base, id, pd, showFloat) ==> b != map[]
  {
    var es := ItemOptions(items, base, id, pd, showFloat);
    SomesMembers(es, b);
    if exists j :: 0 <= j < |items| && items[j] != [] && b == ItemBlock(items[j], base, id, pd, showFloat) {
      var j :| 0 <= j < |items| && items[j] != [] && b == ItemBlock(items[j], base, id, pd, showFloat);
      assert es[j] == Some(b);
    }
  }

  function ConvertChild(c: RuleChild, base: string, id: string, pd: FormulaDict, showFloat: real -> string): ParamOutcome
  {
    match c
    case RuleParam(name, text, cliopt) => ConvertParam(name, text, cliopt, base, id, pd, showFloat)
    case RuleList(name, bare, items) =>
      if name == [] then Skipped else Stored(name, ConvertList(bare, items, base, id, pd, showFloat))
  }

  /** The stored parameters of an object, in order; None when one of them raises. */
  function ConvertChildren(cs: seq<RuleChild>, base: string, id: string, pd: FormulaDict, showFloat: real -> string): (r: Option<seq<(string, Converted)>>)
    ensures r.Some? ==> forall j :: 0 <= j < |r.value| ==> r.value[j].0 != []
  {
    if cs == [] then Some([])
    else
      var n := |cs| - 1;
      match ConvertChildren(cs[..n], base, id, pd, showFloat)
      case None => None
      case Some(init) =>
        match ConvertChild(cs[n], base, id, pd, showFloat)
        case Aborted => None
        case Skipped => Some(init)
        case Stored(name, conv) => Some(init + [(name, conv)])
  }

  /** The parameters written into one dictionary entry, the later one winning. */
  function AddAll(m: map<string, Converted>, conv: seq<(string, Converted)>): (r: map<string, Converted>)
    ensures r.Keys == m.Keys + set j | 0 <= j < |conv| :: conv[j].0
    ensures forall j :: 0 <= j < |conv| ==> conv[j].0 in r
  {
    if conv == [] then m
    else
      var n := |conv| - 1;
      assert forall j :: 0 <= j < n ==> conv[..n][j] == conv[j];
      AddAll(m, conv[..n])[conv[n].0 := conv[n].1]
  }

  /** Two entries filled with the same parameters agree on every one of them. */
  lemma {:induction false} AddAllAgree(m1: map<string, Converted>, m2: map<string, Converted>, conv: seq<(string, Converted)>, j: nat)
    requires j < |conv|
    ensures AddAll(m1, conv)[conv[j].0] == AddAll(m2, conv)[conv[j].0]
  {
    var n := |conv| - 1;
    if j < n && conv[j].0 != conv[n].0 {
      assert conv[..n][j] == conv[j];
      AddAllAgree(m1, m2, conv[..n], j);
    }
  }

  /** The object's parameters stored under its class and id, and under its distName when it
      has one. */
  function StoreMo(acc: RuleJson, base: string, id: string, dn: string, conv: seq<(string, Converted)>): (r: RuleJson)
    ensures base in r.byClass && id in r.byClass[base]
    ensures forall j :: 0 <= j < |conv| ==> conv[j].0 in r.byClass[base][id]
    ensures dn != [] ==> dn in r.byDist && forall j :: 0 <= j < |conv| ==> conv[j].0 in r.byDist[dn]
    ensures forall c :: c in acc.byClass && c != base ==> c in r.byClass && r.byClass[c] == acc.byClass[c]
    ensures forall d :: d in acc.byDist && d != dn ==> d in r.byDist && r.byDist[d] == acc.byDist[d]
    ensures r.byClass.Keys == acc.byClass.Keys + {base}
    ensures r.byDist.Keys == acc.byDist.Keys + (if dn != [] then {dn} else {})
  {
    var ids := if base in acc.byClass then acc.byClass[base] else map[];
    var own := if id in ids then ids[id] else map[];
    var byDist :=
      if dn == [] then acc.byDist
      else acc.byDist[dn := AddAll(if dn in acc.byDist then acc.byDist[dn] else map[], conv)];
    RuleJson(acc.byClass[base := ids[id := AddAll(own, conv)]], byDist)
  }

  /** One object, as the conversion is evidently meant to go: an object without a distName has
      its parameters stored under its class and id only. */
  function ConvertMo(acc: RuleJson, mo: RuleMo, pd: FormulaDict, showFloat: real -> string): Option<RuleJson>
  {
    var base := ClassTail(mo.cls);
    var id := MoId(base, mo.dn);
    match ConvertChildren(mo.children, base, id, pd, showFloat)
    case None => None
    case Some(conv) => Some(StoreMo(acc, base, id, mo.dn, conv))
  }

  /** One object as written: the distName entry is only created for a non-empty distName, but
      every stored parameter is written into `result[dist]`; with an empty distName and no
      entry for "" that write raises, and the whole conversion fails. (When "" is itself a
      class tail the write lands in that class's entry; the model keeps that case apart.) */
  function ConvertMoAsWritten(acc: RuleJson, mo: RuleMo, pd: FormulaDict, showFloat: real -> string): Option<RuleJson>
  {
    var base := ClassTail(mo.cls);
    var id := MoId(base, mo.dn);
    match ConvertChildren(mo.children, base, id, pd, showFloat)
    case None => None
    case Some(conv) =>
      if mo.dn == [] && conv != [] && base != [] && [] !in acc.byClass then None
      else Some(StoreMo(acc, base, id, mo.dn, conv))
  }

  /** The whole document, objects in document order. */
  function RuleJsonOf(mos: seq<RuleMo>, pd: FormulaDict, showFloat: real -> string): Option<RuleJson>
  {
    if mos == [] then Some(RuleJson(map[], map[]))
    else
      var n := |mos| - 1;
      match RuleJsonOf(mos[..n], pd, showFloat)
      case None => None
      case Some(acc) => ConvertMo(acc, mos[n], pd, showFloat)
  }

  /** Every parameter of an object with a distName is stored under both keys, with the same value. */
  lemma StoredUnderBoth(acc: RuleJson, mo: RuleMo, pd: FormulaDict, showFloat: real -> string, j: nat)
    requires mo.dn != []
    requires var base := ClassTail(mo.cls);
             var c := ConvertChildren(mo.children, base, MoId(base, mo.dn), pd, showFloat);
             c.Some? && j < |c.value|
    ensures var base := ClassTail(mo.cls);
            var id := MoId(base, mo.dn);
            var name := ConvertChildren(mo.children, base, id, pd, showFloat).value[j].0;
            var r := ConvertMo(acc, mo, pd, showFloat);
            r.Some? && base in r.value.byClass && id in r.value.byClass[base] && mo.dn in r.value.byDist
            && name in r.value.byClass[base][id] && name in r.value.byDist[mo.dn]
            && r.value.byClass[base][id][name] == r.value.byDist[mo.dn][name]
  {
    var base := ClassTail(mo.cls);
    var id := MoId(base, mo.dn);
    var conv := ConvertChildren(mo.children, base, id, pd, showFloat).value;
    var ids := if base in acc.byClass then acc.byClass[base] else map[];
    var own := if id in ids then ids[id] else map[];
    var d := if mo.dn in acc.byDist then acc.byDist[mo.dn] else map[];
    AddAllAgree(own, d, conv, j);
  }

  /** The finding: a named parameter of an object without a distName aborts the conversion as
      written, while the corrected conversion stores it under its class and id. */
  lemma DnLessObjectAborts(acc: RuleJson, cls: string, name: string, pd: FormulaDict, showFloat: real -> string)
    requires ClassTail(cls) != [] && [] !in acc.byClass && name != []
    ensures var mo := RuleMo(cls, [], [RuleParam(name, "1", [])]);
            var fixed := ConvertMo(acc, mo, pd, showFloat);
            ConvertMoAsWritten(acc, mo, pd, showFloat).None?
            && MoId(ClassTail(cls), []) == DefaultId && fixed.Some? && fixed.value.byDist == acc.byDist
            && name in fixed.value.byClass[ClassTail(cls)][DefaultId]
  {
    var base := ClassTail(cls);
    MoIdWithoutDn(base);
    SingleParamStored(name, base, DefaultId, pd, showFloat);
  }

  lemma MoIdWithoutDn(base: string)
    ensures MoId(base, []) == DefaultId
  {
    assert FirstIdMatch([], base + "-", 0).None?;
  }

  lemma SingleParamStored(name: string, base: string, id: string, pd: FormulaDict, showFloat: real -> string)
    requires name != []
    ensures var c := ConvertChildren([RuleParam(name, "1", [])], base, id, pd, showFloat);
            c.Some? && |c.value| == 1 && c.value[0].0 == name
  {
    var cs := [RuleParam(name, "1", [])];
    assert cs[..0] == [];
    assert CliFlags([]) == Some(DefaultFlags);
    assert ConvertChild(cs[0], base, id, pd, showFloat).Stored?;
  }

  /** Corrected and as-written conversions agree on every object that has a distName. */
  lemma ConvertMoAgrees(acc: RuleJson, mo: RuleMo, pd: FormulaDict, showFloat: real -> string)
    requires mo.dn != []
    ensures ConvertMoAsWritten(acc, mo, pd, showFloat) == ConvertMo(acc, mo, pd, showFloat)
  {
  }

  /** One object into the dictionary being built. */
  method ConvertOne(acc: RuleJson, mo: RuleMo, pd: FormulaDict, showFloat: real -> string) returns (r: Option<RuleJson>)
    ensures r == ConvertMo(acc, mo, pd, showFloat)
  {
    var base := ClassTail(mo.cls);
    var id := MoId(base, mo.dn);
    var conv: seq<(string, Converted)> := [];
    var i := 0;
    while i < |mo.children|
      invariant 0 <= i <= |mo.children|
      invariant ConvertChildren(mo.children[..i], base, id, pd, showFloat) == Some(conv)
    {
      ChildrenSnoc(mo.children, i, base, id, pd, showFloat);
      var out := ConvertChild(mo.children[i], base, id, pd, showFloat);
      if out.Aborted? {
        NoneStays(mo.children, i + 1, base, id, pd, showFloat);
        return None;
      }
      if out.Stored? {
        conv := conv + [(out.name, out.conv)];
      }
      i := i + 1;
    }
    assert mo.children[..i] == mo.children;
    r := Some(StoreMo(acc, base, id, mo.dn, conv));
  }

  lemma ChildrenSnoc(cs: seq<RuleChild>, i: nat, base: string, id: string, pd: FormulaDict, showFloat: real -> string)
    requires i < |cs| && ConvertChildren(cs[..i], base, id, pd, showFloat).Some?
    ensures var out := ConvertChild(cs[i], base, id, pd, showFloat);
            var init := ConvertChildren(cs[..i], base, id, pd, showFloat).value;
            ConvertChildren(cs[..i + 1], base, id, pd, showFloat)
            == match out
               case Aborted => None
               case Skipped => Some(init)
               case Stored(name, conv) => Some(init + [(name, conv)])
  {
    assert cs[..i + 1][..i] == cs[..i];
    assert cs[..i + 1][i] == cs[i];
  }

  /** Once a parameter raises, the object fails whatever follows. */
  lemma {:induction false} NoneStays(cs: seq<RuleChild>, i: nat, base: string, id: string, pd: FormulaDict, showFloat: real -> string)
    requires i <= |cs| && ConvertChildren(cs[..i], base, id, pd, showFloat).None?
    ensures ConvertChildren(cs, base, id, pd, showFloat).None?
    decreases |cs| - i
  {
    if i < |cs| {
      assert cs[..i + 1][..i] == cs[..i];
      NoneStays(cs, i + 1, base, id, pd, showFloat);
    } else {
      assert cs[..i] == cs;
    }
  }

  /** `do_rulebook_to_dict`: `exists` says whether the file is there and `parsed` is its
      managed objects, None when it cannot be parsed. The result is what is written to JSON. */
  method RulebookToDict(s: CliSession, arg: string, present: bool, parsed: Option<seq<RuleMo>>,
                        pd: FormulaDict, showFloat: real -> string)
    returns (json: Option<RuleJson>)
    modifies s`errors
    ensures Strip(arg) == [] ==> json.None? && s.errors == old(s.errors) + [ErrorLine(MsgRuleUsage)]
    ensures Strip(arg) != [] && !present ==>
              json.None? && s.errors == old(s.errors) + [ErrorLine(MsgNoRuleXml(Strip(arg)))]
    ensures Strip(arg) != [] && present && parsed.None? ==>
              json.None? && s.errors == old(s.errors) + [ErrorLine(MsgRuleParseFailed)]
    ensures Strip(arg) != [] && present && parsed.Some? ==>
              json == RuleJsonOf(parsed.value, pd, showFloat)
              && s.errors == old(s.errors) + (if json.None? then [ErrorLine(MsgRuleParseFailed)] else [])
  {
    var filename := Strip(arg);
    if filename == [] {
      s.PerrorM(MsgRuleUsage);
      return None;
    }
    if !present {
      s.PerrorM(MsgNoRuleXml(filename));
      return None;
    }
    if parsed.None? {
      s.PerrorM(MsgRuleParseFailed);
      return None;
    }
    json := ConvertAll(parsed.value, pd, showFloat);
    if json.None? {
      s.PerrorM(MsgRuleParseFailed);
    }
  }

  /** The objects of the document, in order, into one dictionary; None once one of them fails. */
  method ConvertAll(mos: seq<RuleMo>, pd: FormulaDict, showFloat: real -> string) returns (json: Option<RuleJson>)
    ensures json == RuleJsonOf(mos, pd, showFloat)
  {
    var acc := RuleJson(map[], map[]);
    var i := 0;
    while i < |mos|
      invariant 0 <= i <= |mos|
      invariant RuleJsonOf(mos[..i], pd, showFloat) == Some(acc)
    {
      JsonSnoc(mos, i, pd, showFloat);
      var next := ConvertOne(acc, mos[i], pd, showFloat);
      if next.None? {
        JsonNoneStays(mos, i + 1, pd, showFloat);
        return None;
      }
      acc := next.value;
      i := i + 1;
    }
    assert mos[..i] == mos;
    json := Some(acc);
  }

  lemma JsonSnoc(mos: seq<RuleMo>, i: nat, pd: FormulaDict, showFloat: real -> string)
    requires i < |mos| && RuleJsonOf(mos[..i], pd, showFloat).Some?
    ensures RuleJsonOf(mos[..i + 1], pd, showFloat) == ConvertMo(RuleJsonOf(mos[..i], pd, showFloat).value, mos[i], pd, showFloat)
  {
    assert mos[..i + 1][..i] == mos[..i];
    assert mos[..i + 1][i] == mos[i];
  }

  lemma {:induction false} JsonNoneStays(mos: seq<RuleMo>, i: nat, pd: FormulaDict, showFloat: real -> string)
    requires i <= |mos| && RuleJsonOf(mos[..i], pd, showFloat).None?
    ensures RuleJsonOf(mos, pd, showFloat).None?
    decreases |mos| - i
  {
    if i < |mos| {
      JsonNoneStep(mos[..i + 1], mos[..i], pd, showFloat);
      JsonNoneStays(mos, i + 1, pd, showFloat);
    } else {
      assert mos[..i] == mos;
    }
  }

  /** A failed prefix makes the conversion one object longer fail too. */
  lemma JsonNoneStep(longer: seq<RuleMo>, prefix: seq<RuleMo>, pd: FormulaDict, showFloat: real -> string)
    requires longer != [] && longer[..|longer| - 1] == prefix && RuleJsonOf(prefix, pd, showFloat).None?
    ensures RuleJsonOf(longer, pd, showFloat).None?
  {
  }
}
