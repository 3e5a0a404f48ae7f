# Base-station configuration tree: a Dafny model

This project models the core of a two-part tool for configuring base stations (BTS) by their managed objects. Each managed object has a class, a distinguished name (distName) such as `MRBTS-1/EQM-1/APEQM-1`, a version, an operation tag, parameters and lists.

- **The client** is an interactive command shell. It holds one configuration tree per station. It navigates and edits that tree through tokenised commands, filling defaults from a rulebook. It translates values with linear formulas. It computes change-sets against a reference tree (commit-all, commit-diff, commit-diff-para) and turns them into scripts.
- **The server** is a remote-procedure service. It keeps one workspace of variables per station. It reconciles looked-up and manually given station addresses, stores committed documents and files, lists and deletes them, and dedups software-update requests.

The model follows the Python source file by file; each file is one Dafny module:

- **Tree and schema:** `Tree`, `Schema`, `Rules` and `Formula` hold the data model. Objects and trees are datatypes, and the schema catalog and rulebook are given values.
- **Client session:** `Session.CliSession` is a class. Its fields are the shell's state: prompt stack, position (`match_tail`), tree, reference tree, rulebook, error log and so on. The mixin files (`TreeCommands`, `CommitCommands`, `SetCommands`, `ToolCommands`, `AutocommCommands`, `AdminCliCommands`, `InitCli`) are methods on that session, and each one updates the fields that the Python method updates, apart from the gaps listed under "Left out" (commands that are returned as a plan rather than run, for one).
- **Pure specifications:** each session method is proved against a pure function of the old state. These live in `TreeEdit` and `TreeNav` for tree editing and navigation, and in `CommitUtils`, `CommitCommands`, `TmplUtils` and `AutocommRows` for the rest. The properties the source promises are proved as lemmas about those functions.
- **Server:** `WsManager.Manager` and `Workspace.WorkSpace` are classes over maps, as in the source. `ExecutionHelper`, `AdminCliInterface` and `CommandHandler` model the request handlers. Each handler is a method whose `ensures` ties it to a pure plan.
- **Outside world as parameters:** everything outside the process is a parameter or a recorded answer. This covers the server's replies, base64 decoding, the JSON parser, the network address lookup, file existence, the clock, user confirmations and the random task key.

Where the code is evidently wrong, the model has both halves, and each pair is listed under "Findings". One function models the code as written, and a lemma shows the failure on a named input. A corrected function states what the code evidently intends, and the rest of the model builds on it. So these session methods run the corrected behaviour, not the code as written:
- `TreeCommands.NoMo`, `TreeCommands.AddAutoPa` and `TreeCommands.ChgMoId` in the tree commands;
- `ToolCommands.RulebookToDict` and `ToolCommands.ConvertAll` in the rulebook conversion;
- the rulebook file choice of `InitCli.RulebookFile`, used by the set and admincli commands.

The server's router is the exception. `CommandHandler.SendCommand` answers as written, missing handlers included. The router does call the nine handlers that `ExecutionHelper` lacks, and each such call ends in the AttributeError reply, which `CommandHandler.RouteMissing` states.

The model also keeps the code's other quirks:
- The server rounds reversed formula values and the client does not.
- A zero multiplier makes reversing fail; a zero divisor does not.
- `commit-all` does not retag objects.
- A single rulebook key match falls through to the id lookup.

## Model

| member | source | states |
|---|---|---|
| ClientConfig.Lookup | cli/core/config/config_manager.py:30-31 | an absent key reads as None, a present one as its stored value |
| ClientConfig.Updated | cli/core/config/config_manager.py:10-28 | a set succeeds exactly for the five known keys and then adds no key other than the one written |
| ClientConfig.GetAfterSet | cli/core/config/config_manager.py:10-31 | a value stored by set is read back by get, and every other key reads as before |
| ClientConfig.InitialShape | cli/core/config/config_manager.py:2-8 | the fresh configuration holds the four user keys, each None, and not `xml_tree` |
| ClientConfig.ConfigManager.constructor | cli/core/config/config_manager.py:2-8 | the configuration starts as the initial four-key map |
| ClientConfig.ConfigManager.Set | cli/core/config/config_manager.py:10-28 | a known key is stored; an unknown one raises (reported as not ok) and leaves the configuration unchanged |
| ClientConfig.ConfigManager.Get | cli/core/config/config_manager.py:30-31 | the answer is the stored value or None |
| ClientConfig.ConfigManager.Reset | cli/core/config/config_manager.py:36-38 | every present key becomes None and no key is added or removed |
| ServerConfig.DefaultXml | cli_server/core/config/config_manager.py:19-23 | a default reference document exists exactly for the three listed (action, rat, station) triples |
| ServerConfig.AutoFill | cli_server/core/config/config_manager.py:61-72 | an already set reference is kept; only `reference_config` can change, and at most that key is added |
| ServerConfig.Check | cli_server/core/config/config_manager.py:34-59 | unknown keys raise KeyError; action, rat and station values are stored exactly when they belong to their enumerations; the reference and the tree are stored as given |
| ServerConfig.RefusedUnchanged | cli_server/core/config/config_manager.py:34-59 | a refused set leaves the configuration as it was |
| ServerConfig.GetAfterSet | cli_server/core/config/config_manager.py:34-75 | a stored value is read back and the other keys (apart from the auto-filled reference) read as before |
| ServerConfig.ReferenceKept | cli_server/core/config/config_manager.py:61-72 | a reference configuration already set is never overwritten by the auto-fill |
| ServerConfig.AutoFillFromTable | cli_server/core/config/config_manager.py:19-72 | setting the station of the triple (init, 4g, 147568) fills in MRBTS147568.xml |
| ServerConfig.ConfigManager.constructor | cli_server/core/config/config_manager.py:26-32 | the configuration starts with its five keys None |
| ServerConfig.ConfigManager.Set | cli_server/core/config/config_manager.py:34-59 | the outcome is the validation verdict and the new configuration is the specified update |
| ServerConfig.ConfigManager.TryAutoSetReference | cli_server/core/config/config_manager.py:61-72 | the new configuration is the auto-filled one |
| ServerConfig.ConfigManager.Reset | cli_server/core/config/config_manager.py:80-82 | every present key becomes None and no key is added or removed |
| XmlUtils.LocalName | cli_server/common/utils/xml_utils.py:3-8 | a tag without '}' is kept; otherwise the text after its first '}' |
| XmlUtils.StripNamespace | cli_server/common/utils/xml_utils.py:3-8 | every element, the root included, gets its local tag and keeps its children in order |
| XmlUtils.StripNamespaceNoop | cli_server/common/utils/xml_utils.py:3-8 | a tree whose tags carry no namespace is left as it is |
| XmlUtils.StripNamespaceSize | cli_server/common/utils/xml_utils.py:3-8 | stripping rewrites tags only: the tree keeps its number of elements |
| XmlUtils.NonBlank | cli_server/common/utils/xml_utils.py:10-11 | exactly the non-blank lines are kept, each one taken from the input |
| XmlUtils.RemoveEmptyLinesLines | cli_server/common/utils/xml_utils.py:10-11 | the result's lines are exactly the input's non-blank lines, in order |
| XmlUtils.RemoveEmptyLinesIdempotent | cli_server/common/utils/xml_utils.py:10-11 | removing blank lines twice is removing them once |
| PathUtils.BaseDir | cli/common/util/path_utils.py:4-22 | the base is cwd/cli/data in DEV, exe_dir/data when frozen, and cwd/data otherwise |
| PathUtils.GetPath | cli/common/util/path_utils.py:24-28 | an unknown category is a ValueError; otherwise the base, the category's directory, then the parts |
| PathUtils.GetPathShape | cli/common/util/path_utils.py:24-28 | the path ends with the parts, and commit and tmpl map to generated and tmpl_applied |
| NrCellGrpMap.TableValues | cli/core/config/nr_cell_grp_map.py:1-22 | every table entry names one of the four templates and DEFAULT is typeA |
| NrCellGrpMap.Resolve | cli/core/config/nr_cell_grp_map.py:23-26 | a missing, empty or unlisted type gets the DEFAULT template; a listed one gets its own |
| Session.Perror | cli/core/config/init_cli.py:243-247 | the message is appended to the script errors with its "[오류] " prefix and nothing else changes |
| Session.CliSession.constructor | cli/core/config/init_cli.py:23-65 | every setting is taken from the arguments and every other field starts as `__init__` leaves it |
| Session.CliSession.SetNav | cli/core/config/init_cli.py:48-54 | the navigation fields are those of the given state |
| Session.CliSession.PerrorM | cli/core/config/init_cli.py:243-247 | the session's state becomes the specified `perror` of the old one |
| Workspace.ReadAfterWrite | cli_server/core/workspace/workspace.py:12-16 | a value written under a key is read back and other keys read as before |
| Workspace.WorkSpace.constructor | cli_server/core/workspace/workspace.py:2-10 | both variable maps start empty and every other field None |
| Workspace.WorkSpace.Set | cli_server/core/workspace/workspace.py:12-13 | one key of the station variables is written and nothing else changes |
| Workspace.WorkSpace.Get | cli_server/core/workspace/workspace.py:15-16 | an absent key reads as None, a present one as its value |
| WsManager.Manager.constructor | cli_server/core/workspace/ws_manager.py:9-12 | no workspace is registered or active |
| WsManager.Manager.SetActive | cli_server/core/workspace/ws_manager.py:14-24 | a known id reuses its entry, removed or not; an unknown id gets a fresh workspace as `__init__` leaves it, holding only its `bts_id`; the id becomes active |
| WsManager.Manager.GetActive | cli_server/core/workspace/ws_manager.py:26-28 | the registered entry of the id, or None |
| WsManager.Manager.GetBtsIp | cli_server/core/workspace/ws_manager.py:30-36 | a falsy id falls back to the active id; unknown ids and removed workspaces are told apart from the stored address |
| WsManager.Manager.Set | cli_server/core/workspace/ws_manager.py:38-42 | only the active workspace's variable is written, its other fields unchanged, and the answer is RESULT::OK even when none is active |
| WsManager.Manager.Get | cli_server/core/workspace/ws_manager.py:44-47 | the active workspace's value, or the text RESULT::OK when none is active |
| WsManager.Manager.RemoveWs | cli_server/core/workspace/ws_manager.py:49-51 | the id stays registered, mapped to None, and the active selection is untouched |
| WsManager.Manager.GetWorkspace | cli_server/core/workspace/ws_manager.py:53-54 | the active workspace |
| Tree.AfterLast | cli/common/mixins/tree_commands.py:469 | the result is a suffix of the text that holds no separator and is no longer than the text |
| Tree.AfterLastSuffix | cli/common/mixins/tree_commands.py:469 | the tail is a suffix, and whatever precedes it ends with the separator |
| Tree.ClassTail | cli/common/mixins/tree_commands.py:469 | the class name after the namespace prefix holds no ':' |
| Tree.AfterLastAppend | cli/common/mixins/tree_commands.py:1108 | after appending a separator and a separator-free tail, the last segment is that tail |
| Tree.AfterLastFree | cli/common/mixins/tree_commands.py:469 | a name without the separator is its own tail |
| Tree.FirstCurrent | cli/common/mixins/tree_commands.py:467-470 | the index of the first object whose class tail is the current class and whose distName ends with the match tail, and no earlier one qualifies; None exactly when none does |
| Tree.FirstWithDn | cli/common/mixins/tree_commands.py:116-120 | the index of the first object with exactly that distName; None exactly when no object has it |
| Tree.LookupP | cli/common/mixins/tree_commands.py:470-471 | a value is found exactly when some `p` carries the name |
| Tree.LookupPAppend | cli/common/mixins/tree_commands.py:470-471 | looking a name up in two runs of `p`: the first run wins |
| Tree.SetP | cli/common/mixins/tree_commands.py:470-481 | the name reads back as the new text, other names are untouched, and a new `p` is appended only when the name was absent |
| Tree.RemoveP | cli/common/mixins/tree_commands.py:840-845 | the first `p` of that name disappears, all others stay, and an absent name changes nothing |
| Tree.SetPAt | cli/common/mixins/tree_commands.py:470-472 | overwriting equals replacing the text of the first match in place |
| Tree.RemovePAt | cli/common/mixins/tree_commands.py:840-843 | removing equals cutting the first match out of the sequence |
| Tree.FindList | cli/common/mixins/tree_commands.py:527-531 | the index of the first list of that name, with no earlier match; None exactly when none matches |
| Tree.PyIndex | cli/common/mixins/tree_commands.py:534-540 | Python indexing succeeds exactly in -n..n-1, and a negative index counts from the end |
| Tree.Segments | cli/common/mixins/tree_commands.py:151 | splitting a distName on "/" gives at least one segment |
| Tree.ClassValue | cli/common/mixins/tree_commands.py:147-156 | NOKLTE: under an LNBTS branch on 4G, com.nokia.srbts.<branch>: otherwise |
| Tree.ClassValueTail | cli/common/mixins/tree_commands.py:147-156 | whatever the branch, the tail of the written class attribute is the class name |
| Schema.Lookup | cli/common/base_tool.py:146-318 | an entry is found exactly when some parameter carries that name |
| Schema.Put | cli/common/base_tool.py:146-318 | the entry reads back, other names read as before, and the catalog grows only for a new name |
| Schema.DigitRun | cli/common/mixins/tree_commands.py:99 | the run of decimal digits starting at a position: all digits, ending at a non-digit or the end |
| Schema.RangeRoundTrip | cli/common/mixins/tree_commands.py:98-100 | a range written as "min...max, step s" reads back as the same range |
| Schema.RangeOfDigits | cli/common/mixins/tree_commands.py:99 | digits, "...", then a max-and-step tail parse as a range |
| Schema.MaxStepOfDigits | cli/common/mixins/tree_commands.py:99 | "max, step s" parses to the two numbers the digits spell |
| Schema.DigitRunConcat | cli/common/mixins/tree_commands.py:99 | the digit run after a prefix covers exactly the digits placed there |
| Schema.DigitRunOver | cli/common/mixins/tree_commands.py:99 | a run of digits ending at a non-digit or at the end is the run found |
| Rules.LookupId | cli/common/mixins/tree_commands.py:625 | a rule is found exactly when the id is a key, and it is a rule stored under that id |
| Rules.Or3 | cli/common/mixins/tree_commands.py:625 | the first truthy of the three lookups, else the last |
| Rules.StrLessAsym | cli/common/mixins/tree_commands.py:631 | the string order used by `sorted` is asymmetric |
| Rules.StrLessSplit | cli/common/mixins/tree_commands.py:631 | if k < a then any m lies above k or below a |
| Rules.StrLessTrans | cli/common/mixins/tree_commands.py:631 | the string order is transitive |
| Rules.StrLessTotal | cli/common/mixins/tree_commands.py:631 | two different strings are ordered one way or the other |
| Rules.InsertDistinct | cli/common/mixins/set_commands.py:249 | inserting adds exactly the new element to the members |
| Rules.InsertDistinctSorted | cli/common/mixins/set_commands.py:249 | inserting into a strictly increasing list keeps it strictly increasing |
| Rules.SortedDistinct | cli/common/mixins/set_commands.py:249 | `sorted(set(xs))` is strictly increasing and has exactly the members of xs |
| Rules.MinKey | cli/common/mixins/tree_commands.py:630-634 | `sorted(keys)[0]` is a key and no key is smaller |
| Rules.Keys | cli/common/mixins/tree_commands.py:631 | the keys of a class-level map, in order |
| Formula.ParseIntText | cli/common/util/commit_utils.py:46 | `float()` of an integer's text is that integer |
| Formula.NoDotInDigits | cli/common/util/commit_utils.py:46 | a run of digits holds no decimal point |
| Formula.RoundHalfEven | cli/common/util/commit_utils.py:48 | `round(x)`: within one half of x, and an exact tie goes to the even integer |
| Formula.RoundInt | cli/common/util/commit_utils.py:48 | rounding an integer gives it back |
| Formula.Forward | cli/common/util/commit_utils.py:43-56 | the encoding (UI op offset) * mul / div; no value exactly where Python raises on a zero divisor; none for an unsupported formula |
| Formula.Inner | cli/common/util/commit_utils.py:43-56 | the parenthesised part: addition and subtraction always, division only by a non-zero offset |
| Formula.Reverse | cli/common/util/commit_utils.py:77-106 | decoding is defined exactly for + and − formulas with a non-zero multiplier |
| Formula.ReverseForward | cli/common/util/commit_utils.py:43-106 | decoding the encoding of a UI value gives that UI value back |
| Formula.ForwardReverse | cli/common/util/commit_utils.py:43-106 | encoding a decoded value gives the encoded value back |
| Formula.ReverseTwiceForwardTwice | cli/common/util/commit_utils.py:58-106 | two decodings undo two encodings |
| Formula.ClientOnce | cli/common/util/commit_utils.py:43-56 | the rounded encoding as integer text; the input text when it is not a number or the formula fails |
| Formula.ClientTwice | cli/common/util/commit_utils.py:58-75 | when both encodings succeed, the second encoding of the unrounded first one, rounded, as integer text; the input text when the value is not a number or either encoding fails |
| Formula.ClientReverse | cli/common/util/commit_utils.py:77-106 | the unrounded UI value as float text; a non-number input comes back unchanged, a failure after reading returns the number as float text |
| Formula.ServerOnce | cli_server/common/utils/commit_utils.py:14-25 | the unrounded encoding as float text; the input on failure |
| Formula.ServerTwice | cli_server/common/utils/commit_utils.py:27-43 | when both encodings succeed, the second encoding of the first, unrounded, as float text; the input when the value is not a number or either encoding fails |
| Formula.ServerReverse | cli_server/common/utils/commit_utils.py:45-72 | the decoded UI value rounded to an integer; the input on failure |
| Formula.ServerIntegerRoundTrip | cli_server/common/utils/commit_utils.py:14-72 | an integer UI value survives server encoding followed by decoding, when the float text of the encoding reads back exactly |
| Formula.ClientReverseTwice | cli/common/util/commit_utils.py:77-106 | decoding twice gives the twice-decoded number, when the intermediate float text reads back exactly |
| TreeEdit.UpdateMo | cli/common/mixins/tree_commands.py:457-483 | replacing one object by one of the same class and distName keeps the document's skeleton |
| TreeEdit.SetParamSpec | cli/common/mixins/tree_commands.py:457-483 | an unloaded catalog raises and changes nothing; a class or key outside the catalog, or no current object, only logs an error; otherwise the key is written on the first current object and logged; the position and the skeleton never change |
| TreeEdit.SetParamEffect | cli/common/mixins/tree_commands.py:466-483 | a successful write changes exactly one `p` of the first current object and appends one SET input |
| TreeEdit.FieldLookup | cli/common/mixins/tree_commands.py:515-518 | a field is found exactly when some pair carries its name |
| TreeEdit.Pad | cli/common/mixins/tree_commands.py:536-540 | the padding keeps every old entry and adds fill entries up to the requested length |
| TreeEdit.LastValue | cli/common/mixins/tree_commands.py:548-560 | a value is found exactly when some pair carries the name |
| TreeEdit.SetFieldsLookup | cli/common/mixins/tree_commands.py:548-560 | after the upserts each field holds the last value written to it, and the others are unchanged |
| TreeEdit.FieldInputs | cli/common/mixins/tree_commands.py:548-565 | a record write logs one SET-LIST input per field, in order |
| TreeEdit.EnsureList | cli/common/mixins/tree_commands.py:527-532 | the first list of that name, or a new one appended when the object has none |
| TreeEdit.SetListSpec | cli/common/mixins/tree_commands.py:491-569 | an unloaded catalog raises TypeError and changes nothing; a refused list, field or object only logs an error; an exception keeps inputs and errors; position and skeleton are kept |
| TreeEdit.WriteList | cli/common/mixins/tree_commands.py:522-569 | the list is created before the index is read, so it stays when the index fails to parse or is out of range; errors never grow and exceptions log nothing |
| TreeEdit.WriteIndexed | cli/common/mixins/tree_commands.py:534-566 | the only exception of an indexed write is IndexError, and then no input is logged |
| TreeEdit.WriteAt | cli/common/mixins/tree_commands.py:536-566 | the written list keeps its name |
| TreeEdit.WriteVal | cli/common/mixins/tree_commands.py:536-546 | the `val` form changes the bare values only |
| TreeEdit.WriteRecord | cli/common/mixins/tree_commands.py:547-566 | the record form changes the items only |
| TreeEdit.FindListAfterWrite | cli/common/mixins/tree_commands.py:527-532 | after the write the list is found where it was placed |
| TreeEdit.FindListAt | cli/common/mixins/tree_commands.py:527-531 | the first list with that name is the one found |
| TreeEdit.SetListReachesWrite | cli/common/mixins/tree_commands.py:491-569 | with the checks passed and a current object, the write reaches the first current object |
| TreeEdit.EnsureListBefore | cli/common/mixins/tree_commands.py:527-532 | the list handed to the writer is the one the object held, or an empty one |
| TreeEdit.WriteListDone | cli/common/mixins/tree_commands.py:534-566 | an index in range replaces the list in the object and logs the inputs |
| TreeEdit.WriteValShape | cli/common/mixins/tree_commands.py:536-546 | with a one-based index the bare values are padded with "" and entry index−1 is set |
| TreeEdit.WriteRecordShape | cli/common/mixins/tree_commands.py:547-566 | with a one-based index the items are padded with empty records and item index−1 gets the fields |
| TreeEdit.WriteListValEffect | cli/common/mixins/tree_commands.py:534-546 | the bare values are padded up to the index, entry index−1 becomes the value, the other entries are kept |
| TreeEdit.WriteListRecordEffect | cli/common/mixins/tree_commands.py:547-566 | items are padded up to the index and item index−1 gets each field upserted; the other items are kept |
| TreeEdit.RootIdPlaceholder | cli/common/mixins/tree_commands.py:690-709 | with the placeholder 000 as live id both substitutions change nothing |
| TreeEdit.ResolveRule | cli/common/mixins/tree_commands.py:575-634 | a class without rules yields no record |
| TreeEdit.ResolveRuleFound | cli/common/mixins/tree_commands.py:628-634 | a class with rules always yields a record, thanks to the smallest-id fallback |
| TreeEdit.ResolveRuleById | cli/common/mixins/tree_commands.py:606-626 | with fewer than two matching distName keys, a non-empty record under the id itself wins |
| TreeEdit.ResolveRuleFallback | cli/common/mixins/tree_commands.py:628-634 | when no rule applies by id, 000, __default__ or distName, the smallest id's record is used |
| TreeEdit.RuleFields | cli/common/mixins/tree_commands.py:652-660 | one field value per rule child field, under the same names |
| TreeEdit.ReplayChildren | cli/common/mixins/tree_commands.py:642-660 | the children are written at consecutive indexes; an unloaded catalog stops at the first with TypeError; position and skeleton are kept |
| TreeEdit.ReplayEntry | cli/common/mixins/tree_commands.py:641-664 | a scalar goes through the parameter setter and a list through its children, keeping position and skeleton |
| TreeEdit.Replay | cli/common/mixins/tree_commands.py:641-664 | the record's parameters in order, an exception stopping the replay; an empty record does nothing |
| TreeEdit.ApplyRulebook | cli/common/mixins/tree_commands.py:571-689 | ANTL never takes defaults; an unloaded rulebook raises AttributeError; a class without rules does nothing; position and skeleton are kept |
| TreeNav.ResolveVersion | cli/common/mixins/tree_commands.py:449-456 | the root carries the SBTS release and every other object the EQM one, ending in _100 |
| TreeNav.LinkEthlk | cli/common/mixins/tree_commands.py:262-288 | the ETHLK hook raises when the DU type was never set, and keeps the position and skeleton otherwise |
| TreeNav.CreateSpec | cli/common/mixins/tree_commands.py:129-288 | an ETHLK without a TRMOD only logs an error; otherwise one create object is appended for the path and becomes current, and a created TRMOD becomes the last TRMOD |
| TreeNav.MoveOrCreate | cli/common/mixins/tree_commands.py:63-126 | an existing object at the path is entered; a missing one is created |
| TreeNav.RangeVerdict | cli/common/mixins/tree_commands.py:93-110 | TOPP and classes without a range are never checked; otherwise an id passes exactly when it is an integer in min..max on the step grid; a zero step raises ZeroDivisionError |
| TreeNav.RangeAdmitsWrittenIds | cli/common/mixins/tree_commands.py:93-110 | every id in the range, written in decimal, passes the check |
| TreeNav.EnterOrCreateSpec | cli/common/mixins/tree_commands.py:63-126 | without a station only MRBTS may be entered; a refused id logs its error, a crash raises, a passed id descends and moves to or creates the object |
| TreeNav.EnterLeavesObject | cli/common/mixins/tree_commands.py:63-126 | after a successful descent the tree holds an object at the new path, unless ETHLK was refused or RMOD became ASIRMOD |
| TreeNav.ExitSpec | cli/common/mixins/tree_commands.py:1072-1134 | a pop drops the last frame and the last path segment and keeps the tree, the station and the inputs; staying at the top means the answer was not yes |
| TreeNav.SplitJoinFree | cli/common/mixins/tree_commands.py:1108 | joining the first pieces of a split gives text whose split is exactly those pieces |
| Text.SplitOfJoin | cli/common/mixins/tree_commands.py:1108 | splitting a join of separator-free pieces gives back the pieces |
| Text.JoinSnoc | cli/common/mixins/tree_commands.py:1108 | joining one more piece appends the separator and the piece |
| Text.JoinLines | cli_server/common/execution_helper.py:244 | non-empty pieces free of the separator join to a non-empty text that splits back into exactly those pieces |
| TreeNav.EnterThenExit | cli/common/mixins/tree_commands.py:63-1134 | entering and then leaving puts the editor back at the path, stack and tree position it had |
| TreeNav.ExitAllSpec | cli/common/mixins/tree_commands.py:1136-1144 | exiting until one frame is left keeps the station and the tree and leaves only the first frame; a loop that never ends is no result |
| TreeNav.NoUnderscore | cli/common/mixins/tree_commands.py:48 | a name without underscores is left alone by the underscore removal |
| TreeNav.DefaultEnters | cli/common/mixins/tree_commands.py:22-61 | two tokens whose first is an upper-case name enter or create that object |
| TreeNav.NotUpper | cli/common/mixins/tree_commands.py:48 | one lower-case letter makes a name not upper case |
| TreeNav.DefaultSetsParam | cli/common/mixins/tree_commands.py:22-61 | two tokens whose first has a lower-case letter set that parameter |
| TreeNav.NoMoAsWritten | cli/common/mixins/tree_commands.py:710-754 | as written the position check reads an attribute never set, so every well-formed request on a station raises AttributeError and the tree is kept |
| TreeNav.WithoutTargets | cli/common/mixins/tree_commands.py:740-753 | exactly the non-target objects stay, and the tree shrinks exactly when a target exists |
| TreeNav.WithoutTargetsAppend | cli/common/mixins/tree_commands.py:740-753 | the removal is an order-preserving filter: it distributes over concatenation |
| TreeNav.WithoutTargetsOne | cli/common/mixins/tree_commands.py:740-753 | a single object is kept exactly when it is no target |
| TreeNav.NoMoSpec | cli/common/mixins/tree_commands.py:710-754 | the intended removal keeps the position and the header, only drops objects, and logs no error when it removes something |
| TreeNav.TargetContainsKey | cli/common/mixins/tree_commands.py:740-753 | a target's distName contains the key |
| TreeNav.NoMoKeepsCurrent | cli/common/mixins/tree_commands.py:710-754 | removal never takes the object the editor stands on, and takes every target |
| TreeNav.Tombstone | cli/common/mixins/tree_commands.py:789-808 | the delete record has the removed distName, operation delete, and no content |
| TreeNav.UntouchedMembers | cli/common/mixins/tree_commands.py:757-787 | the objects kept are exactly those whose distName does not contain the key |
| TreeNav.TombstonesShape | cli/common/mixins/tree_commands.py:757-808 | every record is a delete of an object whose distName contains the key |
| TreeNav.ScfCount | cli/common/mixins/tree_commands.py:757-787 | each object is kept or turned into exactly one delete record, and records exist exactly when a match does |
| TreeNav.NoMoScfSpec | cli/common/mixins/tree_commands.py:757-787 | every object under "/cls-id" leaves the tree and a delete record for it is appended after the untouched ones |
| TreeNav.NoPaSpec | cli/common/mixins/tree_commands.py:811-848 | the first p of that name is removed from the object of the current path; an empty object reads as not found; position and skeleton are kept |
| TreeNav.NoPaEffect | cli/common/mixins/tree_commands.py:811-848 | after no-pa the other names read as before and one p of the name is gone |
| TreeNav.AutoParams | cli/common/mixins/tree_commands.py:1019-1070 | the existing parameters stay in front and catalog parameters are added after them |
| TreeNav.AutoParamsLookup | cli/common/mixins/tree_commands.py:1019-1070 | after filling in, a name keeps its old value if it had one, else gets its first wanted catalog default |
| TreeNav.AutoPaPrecheck | cli/common/mixins/tree_commands.py:1019-1043 | the checks before the fill change nothing |
| TreeNav.AutoFill | cli/common/mixins/tree_commands.py:1044-1070 | filling in logs no error and keeps position and skeleton |
| TreeNav.AddAutoPaAsWritten | cli/common/mixins/tree_commands.py:1019-1070 | as written, when no object has the current path the unbound target raises UnboundLocalError |
| TreeNav.AddAutoPaSpec | cli/common/mixins/tree_commands.py:1019-1070 | as intended, an unloaded catalog raises and a missing object is reported |
| TreeNav.AddAutoPaEffect | cli/common/mixins/tree_commands.py:1019-1070 | the current object then holds every wanted declared name and names already there keep their values |
| TreeNav.SearchId | cli/common/mixins/tree_commands.py:1686 | the search yields digits only |
| TreeNav.SearchIdFirst | cli/common/mixins/tree_commands.py:1686 | the search stops at the first place the token is followed by a digit |
| TreeNav.RenameAll | cli/common/mixins/tree_commands.py:1700-1704 | as written every distName starting with the path has every occurrence of the old segment replaced, and the others are kept |
| TreeNav.ChgMoIdAsWrittenTree | cli/common/mixins/tree_commands.py:1663-1714 | as written a rename replaces the old segment in every distName below the path |
| TreeNav.Rebase | cli/common/mixins/tree_commands.py:1663-1714 | the corrected rename moves the subtree of the path, and only it, to the new path |
| TreeNav.RebaseLands | cli/common/mixins/tree_commands.py:1663-1714 | a moved object lands in the subtree of the new path with the same relative path |
| TreeNav.RebaseBack | cli/common/mixins/tree_commands.py:1663-1714 | renaming back undoes a rename when nothing lived under the new path |
| TreeNav.CurrentId | cli/common/mixins/tree_commands.py:1685-1691 | the id read from the last segment is digits and the path ends with class-id |
| TreeNav.RenamedTailEnds | cli/common/mixins/tree_commands.py:1708 | the renamed path ends with the class and the new id |
| TreeNav.ChgMoIdSpec | cli/common/mixins/tree_commands.py:1663-1714 | a rename keeps the station and the inputs |
| TreeNav.ChgMoIdTree | cli/common/mixins/tree_commands.py:1663-1714 | a rename changes the tree by exactly the corrected rebase and the new path ends with class-newid |
| TreeNav.RebaseEffect | cli/common/mixins/tree_commands.py:1663-1714 | objects outside the subtree stay, those inside move below the new path with the same relative path |
| TreeNav.NextIndex | cli/common/mixins/tree_commands.py:289-300 | the next list index is at least one |
| TreeNav.NextIndexAppendsItem | cli/common/mixins/tree_commands.py:289-300 | writing a record at the next index of a list with items appends one item |
| TreeNav.NextIndexAppendsValue | cli/common/mixins/tree_commands.py:289-300 | writing a value at the next index of a list without items appends one bare value |
| TreeNav.AnyStripped | cli/common/mixins/tree_commands.py:302-313 | true exactly when some bare value, stripped, equals the value |
| TreeNav.ListHasPValue | cli/common/mixins/tree_commands.py:302-313 | true only when the object exists, and then exactly when its list has the value |
| TreeNav.SelectAntlPorts | cli/common/mixins/tree_commands.py:1578-1590 | ports 1 and 2 for up to two channels of a direction, ports 1, 2, 5 and 6 for more, enough for up to four |
| TreeNav.VariantToNrcell | cli/common/mixins/tree_commands.py:1650-1661 | the result is empty or reads <d>DL<u>UL |
| TreeNav.VariantRoundTrip | cli/common/mixins/tree_commands.py:1650-1661 | a variant written <d>_<u> reads back as the cell type with those numbers |
| TreeNav.NoMoFinding | cli/common/mixins/tree_commands.py:710-754 | a valid no-mo on a station raises as written, where the intended command removes the target |
| TreeNav.AddAutoPaFinding | cli/common/mixins/tree_commands.py:1019-1070 | add-auto-pa with no object at the path raises as written and is reported as intended |
| TreeNav.EqmSearch | cli/common/mixins/tree_commands.py:1686 | the id search on MRBTS-1/EQM-1 finds 1 |
| TreeNav.EqmReplaceRest | cli/common/mixins/tree_commands.py:1703 | in "/APEQM-1" the old segment EQM-1 is found inside APEQM-1 |
| TreeNav.EqmReplace | cli/common/mixins/tree_commands.py:1703 | replacing every EQM-1 in the child's distName also rewrites APEQM-1 |
| TreeNav.EqmCurrentId | cli/common/mixins/tree_commands.py:1685-1691 | the last segment of MRBTS-1/EQM-1 holds the id 1 |
| TreeNav.ChgMoIdFinding | cli/common/mixins/tree_commands.py:1700-1704 | renaming EQM-1 to EQM-2 as written renames the child APEQM-1 to APEQM-2 |
| TreeNav.EqmRebasePaths | cli/common/mixins/tree_commands.py:1663-1714 | the path facts of the corrected rename example |
| TreeNav.ChgMoIdFindingCorrected | cli/common/mixins/tree_commands.py:1663-1714 | the intended rename of the same example keeps APEQM-1 and moves it below EQM-2 |
| TreeCommands.FindCurrent | cli/common/mixins/tree_commands.py:467-483 | the loop finds the first object the setters write to, as specified by Tree.FirstCurrent |
| TreeCommands.FindDn | cli/common/mixins/tree_commands.py:829-834 | the loop finds the first object with exactly that distName |
| TreeCommands.FindListIn | cli/common/mixins/tree_commands.py:527-531 | the loop finds the first list of that name |
| TreeCommands.UpsertP | cli/common/mixins/tree_commands.py:470-481 | the loop overwrites the first p of that name or appends one, as Tree.SetP specifies |
| TreeCommands.DropP | cli/common/mixins/tree_commands.py:839-845 | the loop removes the first p of that name, as Tree.RemoveP specifies |
| TreeCommands.SetParam | cli/common/mixins/tree_commands.py:457-483 | the session after the write is the one TreeEdit.SetParamSpec gives |
| TreeCommands.HasBadField | cli/common/mixins/tree_commands.py:515-519 | the loop finds a field other than val that the list does not declare exactly when one exists |
| TreeCommands.PadTo | cli/common/mixins/tree_commands.py:536-540 | the padding loop gives the padded list of TreeEdit.Pad |
| TreeCommands.UpsertFields | cli/common/mixins/tree_commands.py:548-560 | the item gets every field upserted and one input is logged per field |
| TreeCommands.PutLists | cli/common/mixins/tree_commands.py:522-566 | only the lists of that object change |
| TreeCommands.CreateList | cli/common/mixins/tree_commands.py:527-532 | the list is found or appended, as TreeEdit.EnsureList specifies, and only that object changes |
| TreeCommands.WriteValIn | cli/common/mixins/tree_commands.py:536-546 | the val form on one list, as TreeEdit.WriteVal specifies |
| TreeCommands.WriteRecordIn | cli/common/mixins/tree_commands.py:547-566 | the record form on one list, logging one input per field when the index is in range |
| TreeCommands.WriteListIndexed | cli/common/mixins/tree_commands.py:534-566 | the indexed write on the session, as TreeEdit.WriteIndexed specifies |
| TreeCommands.WriteListAt | cli/common/mixins/tree_commands.py:522-569 | the list write on one object, as TreeEdit.WriteList specifies |
| TreeCommands.SetListParam | cli/common/mixins/tree_commands.py:491-569 | the session after the list write is the one TreeEdit.SetListSpec gives |
| TreeCommands.NoPa | cli/common/mixins/tree_commands.py:811-848 | the session after no-pa is the one TreeNav.NoPaSpec gives |
| TreeCommands.DropTargets | cli/common/mixins/tree_commands.py:740-753 | the loop keeps exactly the non-target objects and counts a removal exactly when a target exists |
| TreeCommands.WithoutTargetsStep | cli/common/mixins/tree_commands.py:740-753 | one step of the removal pass |
| TreeCommands.NoMo | cli/common/mixins/tree_commands.py:710-754 | the session after no-mo is the one the intended TreeNav.NoMoSpec gives |
| TreeCommands.SplitScf | cli/common/mixins/tree_commands.py:757-787 | the loop keeps the untouched objects and builds one delete record per removed one |
| TreeCommands.ScfStep | cli/common/mixins/tree_commands.py:757-787 | one step of the split: an object is kept or becomes a delete record |
| TreeCommands.NoMoScf | cli/common/mixins/tree_commands.py:757-787 | the session after no-mo-scf is the one TreeNav.NoMoScfSpec gives |
| TreeCommands.FillParams | cli/common/mixins/tree_commands.py:1055-1070 | the loop adds the declared parameters as TreeNav.AutoParams specifies |
| TreeCommands.AddAutoPa | cli/common/mixins/tree_commands.py:1019-1070 | the session after add-auto-pa is the one the intended TreeNav.AddAutoPaSpec gives |
| TreeCommands.Exit | cli/common/mixins/tree_commands.py:1072-1134 | the session and outcome of exit are those TreeNav.ExitSpec gives |
| TreeCommands.ExitAll | cli/common/mixins/tree_commands.py:1136-1144 | the loop ends exactly when TreeNav.ExitAllSpec has a result, and leaves that state |
| TreeCommands.RebaseAll | cli/common/mixins/tree_commands.py:1700-1704 | the corrected rename loop moves the subtree as TreeNav.Rebase specifies |
| TreeCommands.ChgMoId | cli/common/mixins/tree_commands.py:1663-1714 | the session after chg-mo-id is the one the intended TreeNav.ChgMoIdSpec gives |
| TreeCommands.AnyStrippedIn | cli/common/mixins/tree_commands.py:306-312 | the loop finds a stripped bare value equal to the value exactly when one exists |
| TreeCommands.ListHasValue | cli/common/mixins/tree_commands.py:302-313 | the session's answer is TreeNav.ListHasPValue on its tree |
| TreeCommands.ReplayList | cli/common/mixins/tree_commands.py:642-660 | the children replay on the session is TreeEdit.ReplayChildren |
| TreeCommands.ReplayRecord | cli/common/mixins/tree_commands.py:641-664 | the record replay on the session is TreeEdit.Replay |
| TreeCommands.ReplayOne | cli/common/mixins/tree_commands.py:644-662 | one rulebook entry on the session is `TreeEdit.ReplayEntry`: a scalar goes through the parameter setter, a list through its children from index 1 |
| TreeCommands.ApplyRules | cli/common/mixins/tree_commands.py:571-689 | the session after the rulebook defaults is the one TreeEdit.ApplyRulebook gives |
| TreeCommands.LinkEthlkM | cli/common/mixins/tree_commands.py:262-288 | the ETHLK hook on the session is TreeNav.LinkEthlk |
| TreeCommands.CreateMo | cli/common/mixins/tree_commands.py:138-288 | the session after the creation is the one TreeNav.CreateSpec gives |
| TreeCommands.CreateHooksM | cli/common/mixins/tree_commands.py:176-288 | after the new object is added, the session is the one `TreeNav.CreateHooks` gives: the rulebook defaults, then the TRMOD and ETHLK hooks |
| TreeCommands.MoveOrCreateM | cli/common/mixins/tree_commands.py:112-126 | the session after moving to or creating the object is TreeNav.MoveOrCreate |
| TreeCommands.EnterOrCreate | cli/common/mixins/tree_commands.py:63-126 | the session after entering is the one TreeNav.EnterOrCreateSpec gives |
| TreeCommands.EnterFirstM | cli/common/mixins/tree_commands.py:64-72 | with no station yet, the session is the one `TreeNav.EnterFirst` gives: MRBTS becomes the station and the root of the prompt, then its object is entered or created; any other class is refused with nothing else changed |
| TreeCommands.EnterChildM | cli/common/mixins/tree_commands.py:73-126 | with a station, the session is the one `TreeNav.EnterChild` gives: a refused or crashing child check stops it, otherwise the session descends (with `000` replaced for LNBTS and NRBTS) and enters or creates the object |
| TreeCommands.Default | cli/common/mixins/tree_commands.py:22-61 | the session after a default line is the one TreeNav.DefaultSpec gives |
| InitCli.RulebookFileAsWritten | cli/core/config/init_cli.py:66-104 | as written an unknown mode is a ValueError and a missing DU type an AttributeError |
| InitCli.RulebookFile | cli/core/config/init_cli.py:66-104 | a file is chosen exactly for a known mode with a supported DU and RAT, and its name is built from RAT, release, DU tag and mode; the error kinds are told apart |
| InitCli.RulebookFileCellAgrees | cli/core/config/init_cli.py:66-104 | in cell mode the chain as written and the corrected one choose alike |
| InitCli.RulebookFileFinding | cli/core/config/init_cli.py:66-104 | a bts-mode DU20 station raises ValueError as written and loads the DU20 bts file once corrected, while a 4G DU10 one loads the DU20 file as written |
| InitCli.TgtBtsCheck | cli/core/config/init_cli.py:106-147 | accepted exactly for one token equal to the configured dest_bts; bts mode fixes the RU and cell type by RAT; cell mode needs an RU type already set |
| InitCli.ClearRoot | cli/core/config/init_cli.py:142-145 | the reset clears the station, the stack and the path and keeps tree, inputs and errors |
| InitCli.TgtBts | cli/core/config/init_cli.py:106-147 | a refused request only logs its error; an accepted one sets the RU and cell types and the task key and roots the session at the station |
| InitCli.AcceptTgt | cli/core/config/init_cli.py:137-147 | the RU and cell types and the task key are stored; the session is cleared to no station and then entered at MRBTS-<id>, with exactly that prompt and position |
| InitCli.EnterRoot | cli/core/config/init_cli.py:142-147 | the session enters MRBTS-id from the cleared state; the station, path and prompt are those of the new root |
| InitCli.NoTgtBtsSpec | cli/core/config/init_cli.py:149-178 | a wrong argument count or another station logs an error; a declined confirmation changes nothing; a confirmed one resets the station |
| InitCli.NoTgtBts | cli/core/config/init_cli.py:149-178 | the session after no-tgt-bts is the one NoTgtBtsSpec gives |
| InitCli.TgtThenNoTgt | cli/core/config/init_cli.py:106-178 | dropping the station just started leaves nothing of it but the recorded inputs and errors |
| InitCli.GetNames | cli/core/config/init_cli.py:180-198 | exactly the inherited names the current level allows, in order |
| InitCli.SubLevelWithinTop | cli/core/config/init_cli.py:180-198 | every command offered below the root is also offered at the top level |
| AutoCommCli.NewAutoComm | cli/core/config_x/autoComm_cli.py:8-34 | a new session is in bts mode, 4G, release 24R2, with commit diffs allowed and no IoT cell id, at the top level with no station |
| AutoCommCli.VersionArg | cli/core/config_x/autoComm_cli.py:36-45 | a release is stored exactly when the stripped argument is non-empty, and it is that text |
| AutoCommCli.SetMoVersion | cli/core/config_x/autoComm_cli.py:36-45 | an empty argument only logs an error; otherwise the release and the fetched catalog are stored |
| AutoCommCli.RatArg | cli/core/config_x/autoComm_cli.py:47-55 | a RAT is stored exactly when the stripped, upper-cased argument is 4G or 5G |
| AutoCommCli.SetRatType | cli/core/config_x/autoComm_cli.py:47-55 | an unsupported RAT only logs an error; a supported one is stored without error |
| AutoCommCli.ModeArg | cli/core/config_x/autoComm_cli.py:57-65 | a mode is stored exactly when the stripped, lower-cased argument is bts, cell or mod |
| AutoCommCli.SetMode | cli/core/config_x/autoComm_cli.py:57-65 | an unknown mode only logs an error; a known one is stored without error |
| AutoCommCli.SetAllowCommitDiff | cli/core/config_x/autoComm_cli.py:67-72 | diffs are allowed exactly when the argument reads true |
| CommitUtils.ClassKey | cli/common/util/commit_utils.py:123-124 | a class without a namespace prefix is its own catalog key |
| CommitUtils.TranslateP | cli/common/util/commit_utils.py:127-158 | a parameter keeps its name; one whose key is not catalogued or whose stripped text is empty is left as it is |
| CommitUtils.TranslateTree | cli/common/util/commit_utils.py:108-194 | the loops over objects, their parameters and their list items' parameters build the translated copy of the tree |
| CommitUtils.TranslateParams | cli/common/util/commit_utils.py:127-158 | the loop over one run of parameters rewrites each one as a single parameter is rewritten |
| CommitUtils.TranslatedTreeShape | cli/common/util/commit_utils.py:119-192 | translation keeps every object, parameter name, list name, bare list value and item count, and leaves uncatalogued or blank parameters alone |
| CommitUtils.TranslateUncatalogued | cli/common/util/commit_utils.py:122-192 | a catalog with no entry for any of the tree's classes gives back the same tree |
| CommitUtils.MissingRequired | cli/common/util/commit_utils.py:216-227 | every missing key is one that no parameter of the object carries |
| CommitUtils.WarnMissingRequired | cli/common/util/commit_utils.py:204-233 | the warning lines are disabled, so the result is always empty |
| CommitUtils.RenderAll | cli/common/util/commit_utils.py:260-285 | one text line per command |
| CommitUtils.Quote | cli/common/util/commit_utils.py:271-273 | a value holding a space is wrapped in double quotes; any other value is unchanged |
| CommitUtils.Lcp | cli/common/util/commit_utils.py:253-258 | the shared-prefix count: both paths agree up to it and differ right after it when both go on |
| CommitUtils.LcpUnique | cli/common/util/commit_utils.py:253-258 | any count with those two properties is the shared-prefix count |
| CommitUtils.Exits | cli/common/util/commit_utils.py:260-261 | n exit lines and nothing else |
| CommitUtils.EnterOf | cli/common/util/commit_utils.py:263-267 | a segment gives at most one enter line, and never one for MRBTS |
| CommitUtils.Enters | cli/common/util/commit_utils.py:263-267 | the enter lines of a path never enter MRBTS |
| CommitUtils.ParamCmds | cli/common/util/commit_utils.py:269-274 | one parameter line per parameter |
| CommitUtils.FieldCmds | cli/common/util/commit_utils.py:280-285 | every field line names the list and the item's index |
| CommitUtils.ItemCmds | cli/common/util/commit_utils.py:279-285 | items are numbered from 1 up to their count |
| CommitUtils.ListCmds | cli/common/util/commit_utils.py:276-285 | lists give only item-field lines with an index of at least 1; bare list values are not written |
| CommitUtils.InsertByDn | cli/common/util/commit_utils.py:245 | inserting one object keeps every other object and adds it once |
| CommitUtils.InsertByDnSorted | cli/common/util/commit_utils.py:245 | inserting into a distName-sorted run keeps it sorted |
| CommitUtils.SortByDn | cli/common/util/commit_utils.py:245 | the objects sorted by distName are a permutation of the input in ascending order |
| CommitUtils.ScriptNeverEntersRoot | cli/common/util/commit_utils.py:263-267 | no line of a script enters MRBTS |
| CommitUtils.MoCmdsNeverEnterRoot | cli/common/util/commit_utils.py:252-285 | one object's lines never enter MRBTS |
| CommitUtils.ScriptClosesLastPath | cli/common/util/commit_utils.py:289-290 | the script body ends with one exit per segment of the last path beyond the root |
| CommitUtils.ScriptStepsBetween | cli/common/util/commit_utils.py:252-267 | an object's lines start by leaving the unshared segments of the previous path, then enter the object's own remaining segments |
| CommitUtils.ScriptCommands | cli/common/util/commit_utils.py:306-355 | the loop produces the rendered lines of the script of the sorted objects |
| CommitUtils.MoCommands | cli/common/util/commit_utils.py:311-352 | one object's exits, enters, parameter lines and list lines, in that order |
| CommitUtils.EmitExits | cli/common/util/commit_utils.py:325-326 | the loop appends n exit lines |
| CommitUtils.EmitEnters | cli/common/util/commit_utils.py:328-332 | the loop appends the enter lines of the remaining segments |
| CommitUtils.EmitParams | cli/common/util/commit_utils.py:334-339 | the loop appends one line per parameter |
| CommitUtils.EmitLists | cli/common/util/commit_utils.py:341-350 | the loop appends the field lines of every item of every list |
| CommitUtils.EmitFields | cli/common/util/commit_utils.py:345-350 | the loop appends one line per field of one item |
| CommitUtils.ScriptText | cli/common/util/commit_utils.py:296-357 | the string variant returns the script lines joined by newlines |
| CommitUtils.ScriptFile | cli/common/util/commit_utils.py:235-294 | the file variant writes the same script lines, each followed by a newline |
| CommitUtils.WriteLines | cli/common/util/commit_utils.py:292-294 | the write loop produces every command followed by a newline |
| ServerCommitUtils.SplitKeyInjective | cli_server/common/utils/commit_utils.py:12 | two keys that split to the same tuple are the same key |
| ServerCommitUtils.LoadParamDict | cli_server/common/utils/commit_utils.py:6-12 | no file gives the empty catalog; otherwise the catalog holds exactly the split keys, each with its value |
| ServerCommitUtils.SplitKeysBothWays | cli_server/common/utils/commit_utils.py:12 | every raw key has its split tuple in the catalog, and every tuple joins back to a raw key with the same value |
| ServerCommitUtils.ServerTranslateP | cli_server/common/utils/commit_utils.py:89-111 | a parameter keeps its name; one not catalogued under the full class attribute or with blank text is left as it is |
| ServerCommitUtils.ServerTranslateTree | cli_server/common/utils/commit_utils.py:74-113 | the loops over objects and their own parameters build the translated copy |
| ServerCommitUtils.ServerTranslatedShape | cli_server/common/utils/commit_utils.py:87-111 | the server keeps every object, every list and every parameter name |
| ServerCommitUtils.ServerOnceThenReverse | cli_server/common/utils/commit_utils.py:14-111 | encoding an integer parameter once and then decoding it gives the parameter back, when the float text of the encoding reads back exactly |
| CommitCommands.CommitRoute | cli/common/mixins/commit_commands.py:28-36 | bts mode commits the whole tree translated once; a 4G cell commits the new objects translated twice; a 5G cell commits the changed objects translated once; every other mode does nothing |
| CommitCommands.LastIndexOf | cli/common/mixins/commit_commands.py:87 | the index found holds the character and none follows it; no index means the character does not occur |
| CommitCommands.DropExtension | cli/common/mixins/commit_commands.py:87 | the stem is a prefix of the path; what is cut off starts at the last dot of the last path component, after a non-dot character of that component |
| CommitCommands.CommitFileName | cli/common/mixins/commit_commands.py:100-110 | the name starts with the stem, tag and timestamp and ends with the task key and `.xml`; it carries `_translated` exactly when translated |
| CommitCommands.RefDns | cli/common/mixins/commit_commands.py:235-241 | exactly the non-empty distNames of the reference objects |
| CommitCommands.CoarseDiff | cli/common/mixins/commit_commands.py:245-259 | at most one entry per current object; each is a tombstone or a `create` whose distName the reference lacks |
| CommitCommands.CoarseDiffMembers | cli/common/mixins/commit_commands.py:247-259 | an object is written exactly when some current object is a tombstone or is missing from the reference, as that object's entry |
| CommitCommands.CoarseDiffOfReference | cli/common/mixins/commit_commands.py:247-264 | diffing the reference against itself, with no tombstone in it, writes nothing |
| CommitCommands.Stripped | cli/common/mixins/commit_commands.py:383-390 | each field's text stripped and its name kept |
| CommitCommands.NameMapKeys | cli/common/mixins/commit_commands.py:386-390 | the item map's keys are exactly the non-empty field names |
| CommitCommands.NameMapLast | cli/common/mixins/commit_commands.py:386-390 | a name maps to the text of its last field |
| CommitCommands.PMapKeys | cli/common/mixins/commit_commands.py:369-374 | the parameter map's keys are exactly the non-empty parameter names |
| CommitCommands.PMapLast | cli/common/mixins/commit_commands.py:369-374 | a name maps to the stripped text of its last parameter |
| CommitCommands.FieldOrderIgnored | cli/common/mixins/commit_commands.py:396-404 | two items holding the same fields in any order, with no repeated name, compare equal |
| CommitCommands.ItemMaps | cli/common/mixins/commit_commands.py:384-392 | at most one map per item, and items without a named field are dropped |
| CommitCommands.ChangedIff | cli/common/mixins/commit_commands.py:506-520 | the parameter, list-name and list-content tests fire together exactly when the object's snapshot differs from the reference's |
| CommitCommands.FineEntryCases | cli/common/mixins/commit_commands.py:488-526 | a tombstone is written bare; an object the reference lacks is created whole; any other is written whole as an update exactly when it changed |
| CommitCommands.FineEntries | cli/common/mixins/commit_commands.py:484-526 | one entry for each current object, in order |
| CommitCommands.FineDiffMembers | cli/common/mixins/commit_commands.py:483-534 | exactly the entries written for current objects appear, and each is a delete, a create or an update |
| CommitCommands.FineIndexAt | cli/common/mixins/commit_commands.py:466-475 | with distinct distNames every reference object is indexed under its own distName |
| CommitCommands.FineDiffOfReference | cli/common/mixins/commit_commands.py:483-539 | diffing the reference against itself, with distinct distNames and no tombstone, writes nothing |
| CommitCommands.CollectRefDns | cli/common/mixins/commit_commands.py:235-241 | the loop collects the reference distNames |
| CommitCommands.ExtractCoarse | cli/common/mixins/commit_commands.py:243-259 | the loop builds the distName-only change set |
| CommitCommands.BuildFineIndex | cli/common/mixins/commit_commands.py:466-475 | the loop builds the reference index |
| CommitCommands.ExtractFine | cli/common/mixins/commit_commands.py:479-534 | the loop builds the field-by-field change set |
| CommitCommands.CommitAllSpec | cli/common/mixins/commit_commands.py:41-181 | no task key logs an error only; a translation without a catalog is refused; otherwise the whole tree (with a header when untranslated) is written under the commit file name, and `cmd_status` and the error follow the server's answer |
| CommitCommands.DiffSpec | cli/common/mixins/commit_commands.py:183-358 | `cmd_status` is always set and is True exactly when there is a task key, diffs are allowed, the change set is not empty, a needed catalog exists and the server accepts; the change set is written exactly in the same case without the server condition |
| CommitCommands.DiffOfReferenceRefused | cli/common/mixins/commit_commands.py:261-264 | committing a tree against itself writes no file and sets `cmd_status` False |
| CommitCommands.CommitAll | cli/common/mixins/commit_commands.py:41-181 | the session's error log, last commit file and `cmd_status` change as the commit-all effect says, and the uploaded script is that of the written tree; without translation the live tree itself gains the header, while a translated commit and a refused one leave the tree as it was |
| CommitCommands.CommitDiff | cli/common/mixins/commit_commands.py:183-358 | the session changes as the diff effect says, and the uploaded script is that of the written change set |
| CommitCommands.DiffEffect | cli/common/mixins/commit_commands.py:183-358 | the loop-free part of the diff commit computes exactly the `DiffSpec` effect |
| CommitCommands.ApplyEffect | cli/common/mixins/commit_commands.py:41-358 | the session's error log, last commit file and `cmd_status` change exactly as `Applied` says for the effect |
| CommitCommands.Commit | cli/common/mixins/commit_commands.py:16-39 | an unrouted mode leaves the session as it was; a routed one has the effect of the command it routes to; the live tree is never changed, since the routed commands always translate |
| SetCommands.CleanText | cli/common/mixins/set_commands.py:67-70 | whitespace-only text is dropped, and any other text is kept as it is |
| SetCommands.CleanPs | cli/common/mixins/set_commands.py:65-72 | every parameter is cleaned, in place and in order |
| SetCommands.CleanDocShape | cli/common/mixins/set_commands.py:65-72 | cleaning keeps every object and name and blanks only whitespace-only texts |
| SetCommands.CleanPsTwice | cli/common/mixins/set_commands.py:65-72 | cleaning a run of parameters twice is cleaning it once |
| SetCommands.CleanMoTwice | cli/common/mixins/set_commands.py:65-72 | cleaning an object twice is cleaning it once |
| SetCommands.CleanDocTwice | cli/common/mixins/set_commands.py:65-72 | a second cleaning pass over a document changes nothing |
| SetCommands.LoadTrees | cli/common/mixins/set_commands.py:45-55 | the loaded tree becomes both the live and the reference tree, and `cmd_status` is set True |
| SetCommands.SetCfgScf | cli/common/mixins/set_commands.py:18-63 | a blank name logs the usage only; a server failure sets `cmd_status` False and logs it; an unparsable reply logs the parse failure; otherwise both trees become the cleaned document; the RU type is left alone |
| SetCommands.DuArg | cli/common/mixins/set_commands.py:80-89 | only one word among the listed spellings is accepted, and it is stored upper-cased |
| SetCommands.UpperOfChoice | cli/common/mixins/set_commands.py:81-89 | every listed spelling upper-cases to DU10, DU20 or FSMF |
| SetCommands.DuArgRejectsMixedCase | cli/common/mixins/set_commands.py:81 | a mixed-case spelling such as Du10 is refused |
| SetCommands.SetDuType | cli/common/mixins/set_commands.py:74-93 | a refused argument logs the usage and changes nothing else; otherwise the DU type is stored before the rulebook is chosen, so an unsupported combination raises with it kept; a supported one stores the fetched rulebook and DU schema, each None when its fetch fails, and logs nothing |
| SetCommands.ApplyDuType | cli/common/mixins/set_commands.py:89-91 | the DU type is stored first; an unsupported mode, radio type or version raises with the rulebook and schema kept; otherwise they become the fetched rulebook and DU schema, each None when its fetch fails |
| SetCommands.ParseRuFrom | cli/common/mixins/set_commands.py:101-106 | a parsed band is one of the choices, and the RU type is one of the words |
| SetCommands.ParseRuArgs | cli/common/mixins/set_commands.py:101-106 | a parsed band is one of the choices, and the RU type is one of the words |
| SetCommands.ParseRuArgsForms | cli/common/mixins/set_commands.py:101-106 | a lone RU type, an RU type followed by `--band`, and `-f` before the RU type all parse as expected |
| SetCommands.RuTypeDecision | cli/common/mixins/set_commands.py:111-136 | the RU type is accepted exactly when both tables loaded and it is a key of either; FHCG takes the band or 850; any other type takes no band and warns exactly when one was given |
| SetCommands.RuTemplate4G | cli/common/mixins/set_commands.py:157-160 | the 4G template name, with the band only for FHCG |
| SetCommands.AcceptRuType | cli/common/mixins/set_commands.py:101-152 | the new log, RU type, band option and go-ahead are those `RuHeadAfter` gives: a usage error, a refused RU type and a mode other than cell each stop the command with their message; an accepted RU type is stored with its band (and the ignored-band warning) before the mode is checked |
| SetCommands.ApplyRuTemplate | cli/common/mixins/set_commands.py:162-171 | a template that cannot be fetched is logged and the rulebook kept; a fetched one is overlaid exactly as `_update_rulebook_from_template` overlays it (`TemplateAfter`) |
| RuType.SetRuType | cli/common/mixins/set_commands.py:95-180 | the argument checks end as `AcceptRuType` states; when they stop the command, the trees, configuration, DU type, rulebook and schema are as before; in cell mode the download reply is recorded, `set-cfg-scf genScf` runs and the DU type is derived from the tree it leaves (`DeriveAfter`), then on 4G the RU template named after the RU type and band overlays the rulebook, 5G adds nothing and any other radio type is logged (`RatAfter`) |
| RuType.CellPipeline | cli/common/mixins/set_commands.py:145-180 | the stage after the download, `genScf` and the DU derivation is `DeriveAfter` of the session before it, and the RAT step starts from the log and rulebook that stage leaves |
| RuType.Derive | cli/common/mixins/set_commands.py:145-149 | the trees, configuration, logs, DU type, rulebook and schema are those of recording the download reply, then `SetCfgScf`'s result, then `SetDuTypeFromSmod`'s result on the tree `SetCfgScf` leaves; the RU type is left alone |
| RuType.RatStep | cli/common/mixins/set_commands.py:154-180 | on 4G the template named by `RuTemplate4G` is returned and overlaid; on 5G nothing changes; any other radio type is logged; the trees, configuration, DU type, schema, radio type, mode and MO version are left alone |
| SetCommands.CellTypeNames | cli/common/mixins/set_commands.py:244-248 | the names collected are exactly the slices of the template files that start with the RU filter and end in `.cli` |
| SetCommands.SuffixAfterUnderscore | cli/common/mixins/set_commands.py:240-247 | a file matching the filter is long enough to slice |
| SetCommands.CellTypeNameShape | cli/common/mixins/set_commands.py:240-245 | a collected name is the file name without the DU part and `.cli`, and it starts with the RU type |
| SetCommands.ListCellTypes | cli/common/mixins/set_commands.py:231-252 | no RU or DU type gives nothing; an unreadable directory logs an error and gives nothing; otherwise the collected names sorted without duplicates |
| SetCommands.CellTypeChoice | cli/common/mixins/set_commands.py:183-213 | a cell type is picked only on 5G with RU and DU types and a word that upper-cases to the RU type and `_`; `?` lists the options; anything but 5G is refused |
| SetCommands.SetCellType | cli/common/mixins/set_commands.py:183-229 | a refusal logs its message and changes nothing; `?` gives the listed options and logs an empty list; a pick stores the cell type and then either logs a failed fetch or overlays the template on a loaded rulebook, logging the overlay's failure by kind |
| SetCommands.ShowCellTypes | cli/common/mixins/set_commands.py:201-208 | the options are the listed names sorted without duplicates; a failed listing and an empty list are each logged |
| SetCommands.PickCellType | cli/common/mixins/set_commands.py:215-229 | the cell type is stored; a failed fetch is logged with the rulebook kept; otherwise the rulebook is the template overlay and the log gains exactly the overlay's error, if any |
| SetCommands.OverlayRecord | cli/common/mixins/set_commands.py:284-290 | a record keeps its length and its keys |
| SetCommands.UpdateRulebook | cli/common/mixins/set_commands.py:280-290 | the rulebook keeps its classes, and a class the template does not name is unchanged |
| SetCommands.UpdateRulebookEntry | cli/common/mixins/set_commands.py:280-298 | for every id of a class the template names, a parameter the template sets and the record has takes the template's value; every other parameter and every name stay |
| SetCommands.UpdateRulebookIdempotent | cli/common/mixins/set_commands.py:280-298 | overlaying the same template twice is overlaying it once |
| SetCommands.UpdateRulebookFromTemplate | cli/common/mixins/set_commands.py:275-331 | a loaded rulebook is overlaid; with no rulebook a non-empty template reports a TypeError and an empty one goes on to save `null`; then a mode other than cell or bts reports a ValueError, a missing DU type an AttributeError, and otherwise the save name is returned |
| SetCommands.LncelSplit | cli/common/mixins/set_commands.py:395-396 | the id split from an LNCEL segment is its text up to the next dash |
| SetCommands.LncelIdsOfParts | cli/common/mixins/set_commands.py:394-396 | at most one id per segment |
| SetCommands.LncelIdsOfPartsFrom | cli/common/mixins/set_commands.py:394-396 | every id comes from an `LNCEL-<id>` segment and holds no dash |
| SetCommands.GetUserDefinedLncelIds | cli/common/mixins/set_commands.py:389-397 | the loops collect the LNCEL ids of the created objects, in creation order |
| SetCommands.FirstAntl | cli/common/mixins/set_commands.py:413-417 | the first ANTL object under that radio module and port, or none when no object matches |
| SetCommands.FindAntlDist | cli/common/mixins/set_commands.py:408-418 | no result exactly when no ANTL object matches; otherwise the distName of the first one |
| TmplUtils.DnsOfClass | cli/common/util/tmpl_utils.py:47-59 | at most one distName per object |
| TmplUtils.FirstOfClass | cli/common/util/tmpl_utils.py:47-68 | the first object of the class, or none when no object has it |
| TmplUtils.DnsOfClassFirst | cli/common/util/tmpl_utils.py:63-68 | nothing is found exactly when no object has the class; otherwise the first distName found is the first such object's |
| TmplUtils.FindDistnameByClass | cli/common/util/tmpl_utils.py:39-68 | the loop gives no result exactly when no object has the class, and otherwise the first one's distName |
| TmplUtils.Indent | cli/common/util/tmpl_utils.py:26 | one space for each leading blank of the line |
| TmplUtils.LStripIndent | cli/common/util/tmpl_utils.py:26 | stripping the added indentation gives back the rewritten text |
| TmplUtils.MapLineIndent | cli/common/util/tmpl_utils.py:15-34 | a rewritten `<CLASS> 000` line keeps the line's indentation and then names the class and the last id of its first object; any other line is kept |
| TmplUtils.MappedLines | cli/common/util/tmpl_utils.py:14-34 | one output line per input line |
| TmplUtils.MapOneLine | cli/common/util/tmpl_utils.py:15-34 | the loop body maps one line |
| TmplUtils.ApplyClassBasedMapping | cli/common/util/tmpl_utils.py:6-36 | the mapped lines joined back with newlines |
| TmplUtils.SplitOnce | cli/common/util/tmpl_utils.py:84 | at most two parts: a word, and a rest that starts with a non-blank |
| TmplUtils.Unquote | cli/common/util/tmpl_utils.py:90-91 | unquoting never makes a value longer |
| TmplUtils.ClassifyTmpl | cli/common/util/tmpl_utils.py:76-98 | a class declaration names an upper-case class |
| TmplUtils.ExitAllLine | cli/common/util/tmpl_utils.py:80-82 | `exit-all` in any case, with any blanks around it, closes the current class |
| TmplUtils.TmplStep | cli/common/util/tmpl_utils.py:76-98 | one line keeps every key of the result upper-case |
| TmplUtils.TmplApply | cli/common/util/tmpl_utils.py:80-98 | a classified line keeps every key of the result upper-case, provided the class it opens is upper-case |
| TmplUtils.TmplFold | cli/common/util/tmpl_utils.py:71-100 | after every line the result's keys are upper-case |
| TmplUtils.TmplPairSets | cli/common/util/tmpl_utils.py:97-98 | a parameter line under an open class sets that key of that class, overriding an earlier value, and touches no other class |
| TmplUtils.TmplClassOpens | cli/common/util/tmpl_utils.py:93-96 | a class line opens its class and keeps whatever the classes already held |
| TmplUtils.TmplPairOutsideClass | cli/common/util/tmpl_utils.py:97 | a parameter line with no open class changes nothing |
| TmplUtils.LoadCliTemplateAsRule | cli/common/util/tmpl_utils.py:70-100 | the loop gives the fold's result, whose keys are all upper-case class names |
| TmplUtils.BlockText | cli/common/util/tmpl_utils.py:119-127 | there is a block exactly when the id's marker occurs; it runs from the marker to the next CABLINK marker after it, or to the end |
| TmplUtils.BlockLines | cli/common/util/tmpl_utils.py:129 | one line for each line of the stripped block |
| TmplUtils.LoadCablinkBlocks | cli/common/util/tmpl_utils.py:103-131 | an id has a block exactly when it was asked for and its marker occurs, and the block holds that marker's lines |
| TmplUtils.ProdCodeMaps | cli/common/util/tmpl_utils.py:134-151 | the keys of both tables, an RMOD entry overriding a PROD one; a table that failed to load adds nothing |
| ToolCommands.PrepareLine | cli/common/mixins/tool_commands.py:39-43 | outside bts mode with a BTS id, or on a line without the placeholder, the line is only stripped |
| ToolCommands.PrepareLineSubstitutes | cli/common/mixins/tool_commands.py:42-43 | in bts mode the placeholder on a line becomes `LNBTS <id>` |
| ToolCommands.LineAction | cli/common/mixins/tool_commands.py:49-79 | a blank line, a comment or a line without words is skipped; a known command is dispatched under its normalised name with its words; anything else goes to the default handler as the whole line |
| ToolCommands.LineActions | cli/common/mixins/tool_commands.py:38-79 | one action for each prepared line of the script |
| ToolCommands.KeptStep | cli/common/mixins/tool_commands.py:49-52 | `last_script_line` keeps its value or becomes a line that is neither blank nor a comment |
| ToolCommands.LastKept | cli/common/mixins/tool_commands.py:38-52 | after the script, `last_script_line` is the old value or a line that is neither blank nor a comment |
| ToolCommands.PlanSnoc | cli/common/mixins/tool_commands.py:38-79 | one more line extends the plan by its action and moves `last_script_line` by one step |
| ToolCommands.ScriptPlanMembers | cli/common/mixins/tool_commands.py:38-79 | an action is in the plan exactly when some line of the script gives it |
| ToolCommands.LogLines | cli/common/mixins/tool_commands.py:92-95 | one log line per accumulated error, each with its time stamp |
| ToolCommands.ErrorLog | cli/common/mixins/tool_commands.py:89-106 | there is a log text exactly when errors accumulated, and it joins their stamped lines with newlines |
| ToolCommands.RunScript | cli/common/mixins/tool_commands.py:38-79 | the loop yields the plan of the script (`ScriptPlan`, with the mode and station id of the start) and the last kept line |
| ToolCommands.ExecScript | cli/common/mixins/tool_commands.py:13-109 | a blank name logs the usage; a path not among the script files logs an error; otherwise the returned plan is the script's `ScriptPlan`, the last kept line is updated, and the error log is written exactly when there are errors |
| ToolCommands.RunScriptText | cli/common/mixins/tool_commands.py:38-106 | a found script gives the plan and last kept line of its lines, and an error log exactly when there are errors |
| ToolCommands.TextValue | cli/common/mixins/tool_commands.py:361 | a missing text is "0", any other is stripped |
| ToolCommands.FirstIdMatch | cli/common/mixins/tool_commands.py:334-335 | the first position where the class, a dash and a digit occur, or none at all |
| ToolCommands.DigitEnd | cli/common/mixins/tool_commands.py:334-336 | the end of the run of digits that starts there |
| ToolCommands.MoId | cli/common/mixins/tool_commands.py:334-336 | "__default__" exactly when the pattern does not occur; otherwise the whole digit run after the first match |
| ToolCommands.OptValue | cli/common/mixins/tool_commands.py:405-413 | "true" is 1, "false" is 0, an integer is itself, anything else is 0 |
| ToolCommands.ApplyOpt | cli/common/mixins/tool_commands.py:399-413 | an entry with `=` that does not split in two raises; an entry naming no flag changes nothing |
| ToolCommands.CliFlagsSingle | cli/common/mixins/tool_commands.py:398-413 | a single `k=v` entry sets the flag it names to the value it reads as |
| ToolCommands.CliFlagsTwoEquals | cli/common/mixins/tool_commands.py:401 | an entry with more than one `=` aborts the conversion |
| ToolCommands.FormulaFor | cli/common/mixins/tool_commands.py:418-421 | the formula of `<class>__<id>` first, then that of the class unless the id is "__default__"; only a recognised formula is used |
| ToolCommands.ConvertParam | cli/common/mixins/tool_commands.py:388-432 | a nameless parameter is skipped; bad flags abort; otherwise the flags are stored, the value is masked as `***` when required, and a formula replaces it with the twice-decoded text |
| ToolCommands.ItemBlock | cli/common/mixins/tool_commands.py:358-376 | an item's block is empty exactly when the item is, and holds every field name |
| ToolCommands.ItemOptions | cli/common/mixins/tool_commands.py:357-378 | one block per item, absent for an item without parameters |
| ToolCommands.ConvertList | cli/common/mixins/tool_commands.py:350-386 | a list holds one child per item with fields, or, without items, one `val` child per bare value |
| ToolCommands.ItemBlocksMembers | cli/common/mixins/tool_commands.py:356-378 | the children are exactly the blocks of the items that have fields, and none is empty |
| ToolCommands.ConvertChildren | cli/common/mixins/tool_commands.py:434-436 | every stored parameter has a name |
| ToolCommands.AddAll | cli/common/mixins/tool_commands.py:434-438 | the entry gains exactly the stored names |
| ToolCommands.AddAllAgree | cli/common/mixins/tool_commands.py:437-438 | two entries filled with the same parameters agree on each of them |
| ToolCommands.StoreMo | cli/common/mixins/tool_commands.py:338-344 | the parameters go under the class and id, and also under the distName when there is one; other classes and distNames keep their entries |
| ToolCommands.StoredUnderBoth | cli/common/mixins/tool_commands.py:437-438 | an object with a distName has every parameter stored under both keys with the same value |
| ToolCommands.DnLessObjectAborts | cli/common/mixins/tool_commands.py:343-438 | a named parameter of an object without a distName aborts the conversion as written, while the corrected conversion stores it under its class and id |
| ToolCommands.MoIdWithoutDn | cli/common/mixins/tool_commands.py:334-336 | an object without a distName gets the id "__default__" |
| ToolCommands.ConvertMoAgrees | cli/common/mixins/tool_commands.py:325-438 | the corrected and as-written conversions agree on every object with a distName |
| ToolCommands.ConvertOne | cli/common/mixins/tool_commands.py:325-438 | the loop body converts one object |
| ToolCommands.NoneStays | cli/common/mixins/tool_commands.py:434-438 | once a parameter raises, the whole object fails |
| ToolCommands.RulebookToDict | cli/common/mixins/tool_commands.py:297-448 | a blank name logs the usage; a missing file or a parse failure logs an error; otherwise the result is the dictionary of the corrected conversion (`RuleJsonOf` over `ConvertMo`; see "Left out") |
| ToolCommands.ConvertAll | cli/common/mixins/tool_commands.py:325-438 | the loop converts the objects in order, as the corrected `RuleJsonOf` does, and fails once one of them fails |
| ToolCommands.JsonSnoc | cli/common/mixins/tool_commands.py:325-438 | one more object extends the dictionary by that object's conversion |
| ToolCommands.JsonNoneStays | cli/common/mixins/tool_commands.py:325-438 | once the conversion fails it stays failed |
| AutocommCommands.StripAll | cli/common/mixins/autocomm_commands.py:41-42 | one stripped line per line |
| AutocommCommands.StripAllAt | cli/common/mixins/autocomm_commands.py:42 | each entry is that line stripped |
| AutocommCommands.SeenHeaderWitness | cli/common/mixins/autocomm_commands.py:44-46 | the header is open at a line exactly when a HEADER marker comes before it |
| AutocommCommands.SeenBodyWitness | cli/common/mixins/autocomm_commands.py:47-48 | the scan has stopped at a line exactly when a BODY marker comes before it |
| AutocommCommands.SeenMarkerWitness | cli/common/mixins/autocomm_commands.py:85-90 | the body is running at a line exactly when some marker comes before it |
| AutocommCommands.SeenMarkerShift | cli/common/mixins/autocomm_commands.py:81-93 | behind a marker-free preamble, a line has seen a marker exactly when it has within the rest |
| AutocommCommands.HeaderEntries | cli/common/mixins/autocomm_commands.py:41-51 | one entry per line, as the header scan reads that line |
| AutocommCommands.HeaderViewMembers | cli/common/mixins/autocomm_commands.py:41-51 | a line is in the header exactly when it comes after a HEADER marker, before every BODY marker, and is not a HEADER marker itself, right-stripped |
| AutocommCommands.RStripAll | cli/common/mixins/autocomm_commands.py:51 | every line without its trailing blanks |
| AutocommCommands.HeaderBetween | cli/common/mixins/autocomm_commands.py:41-51 | on lines opening with HEADER and holding BODY further on, the header is the lines in between, right-stripped |
| AutocommCommands.StripAllAppend | cli/common/mixins/autocomm_commands.py:41-42 | stripping line by line commutes with joining scripts |
| AutocommCommands.HeaderBetweenMarkers | cli/common/mixins/autocomm_commands.py:38-51 | between a HEADER marker and a BODY marker the header is exactly the lines in between, right-stripped, whatever follows |
| AutocommCommands.HeaderLines | cli/common/mixins/autocomm_commands.py:38-51 | the loop collects the header |
| AutocommCommands.ShowScriptHeader | cli/common/mixins/autocomm_commands.py:20-59 | a blank name logs the usage; a name the server has no file for (not in `remote`, where `load_from_server` gives None) logs the download error; otherwise it shows the header lines of the fetched text, or a notice when there are none, and logs nothing |
| AutocommCommands.BodyEntries | cli/common/mixins/autocomm_commands.py:82-124 | one entry per line: nothing before any marker or for a blank or comment line, otherwise the line's dispatch |
| AutocommCommands.KeptEntries | cli/common/mixins/autocomm_commands.py:92-98 | the body lines that are neither blank nor comments, which `last_script_line` runs through |
| AutocommCommands.LastOr | cli/common/mixins/autocomm_commands.py:98 | the last kept line, or the old value when there is none |
| AutocommCommands.BodyPlanMembers | cli/common/mixins/autocomm_commands.py:82-124 | an action is dispatched exactly when some body line gives it |
| AutocommCommands.PreambleIgnoredOn | cli/common/mixins/autocomm_commands.py:85-93 | a marker-free preamble adds no action |
| AutocommCommands.PreambleIgnored | cli/common/mixins/autocomm_commands.py:81-93 | the lines before the first marker are never run |
| AutocommCommands.RunBody | cli/common/mixins/autocomm_commands.py:81-124 | the loop dispatches the body's actions and leaves `last_script_line` at the last kept line |
| AutocommCommands.AutocommRunScript | cli/common/mixins/autocomm_commands.py:62-129 | the working tree is emptied first, whatever follows; a blank name logs the usage; a name the server has no file for logs the download error; otherwise the plan is that of the fetched script's body (`BodyPlan`), and the last kept line becomes the body's last kept line, or stays as it was when the body has none |
| AutocommCommands.LastKnown | cli/common/mixins/autocomm_commands.py:406-408 | the last filled header cell at or before a column, or none when all are empty |
| AutocommCommands.FilledForward | cli/common/mixins/autocomm_commands.py:406-408 | each cell takes the value of the last filled cell at or before it |
| AutocommCommands.FillForward | cli/common/mixins/autocomm_commands.py:406-408 | the in-place loop turns the header row into its filled-forward form |
| AutocommCommands.FilledForwardCells | cli/common/mixins/autocomm_commands.py:406-408 | a filled cell keeps its value; an empty one takes its left neighbour's; a cell stays empty only when every cell up to it is empty |
| AutocommCommands.FillForwardIdempotent | cli/common/mixins/autocomm_commands.py:406-408 | filling forward twice is filling forward once |
| AutocommCommands.CurrentMo | cli/common/mixins/autocomm_commands.py:416-420 | the object a column belongs to is a non-empty header at or before it, and none only when all of them are empty |
| AutocommCommands.HeaderNames | cli/common/mixins/autocomm_commands.py:417-419 | the non-empty headers, column by column |
| AutocommCommands.ColumnEntries | cli/common/mixins/autocomm_commands.py:416-424 | one entry per column: the key and column when the object owns the column and the key is set |
| AutocommCommands.ColumnsOfMembers | cli/common/mixins/autocomm_commands.py:416-424 | a (key, column) pair is listed under an object exactly when the column has the key and that object is the most recent header at that column |
| AutocommCommands.UnseenMoEmpty | cli/common/mixins/autocomm_commands.py:419-424 | an object not yet seen among the headers has no columns yet |
| AutocommCommands.BuildMoColumns | cli/common/mixins/autocomm_commands.py:413-425 | the objects in order of first appearance, each with its (key, column) pairs in column order |
| AutocommCommands.DetermineDuType | cli/common/mixins/autocomm_commands.py:436-448 | only a text product name on 4G or 5G gives a DU type, and it is du20, FSMF or du10 |
| AutocommCommands.DuTypeTablesAgree | cli/common/mixins/autocomm_commands.py:436-448 | the sheet's DU table and the one the integration command applies agree up to case for every product name |
| AutocommCommands.MoAlias | cli/common/mixins/autocomm_commands.py:548-557 | on 5G the LNBTS columns stand for NRBTS, and there is no other alias; a non-zero number has no `strip` and raises |
| AutocommCommands.LteDummyAsWritten | cli/common/mixins/autocomm_commands.py:616-635 | as written, the FSMF branch is taken exactly for FSMF and the DU20 branch never is |
| AutocommCommands.LteDummyFor | cli/common/mixins/autocomm_commands.py:616-635 | corrected, FSMF gets the SMOD dummy and DU20 the FHS dummy |
| AutocommCommands.Du20DummyDropped | cli/common/mixins/autocomm_commands.py:626 | a DU20 station gets no dummy block as written and the FHS one once corrected; every other DU type is treated alike |
| AutocommRows.Get | cli/common/mixins/autocomm_commands.py:300 | a key's value, and None for a missing key |
| AutocommRows.MissingEntries | cli/common/mixins/autocomm_commands.py:927-939 | one entry per required key, a message exactly when the key's value counts as missing under the sheet's rule |
| AutocommRows.MissingErrors | cli/common/mixins/autocomm_commands.py:351-354 | no missing-value message exactly when every required key carries a value |
| AutocommRows.VlanErrors | cli/common/mixins/autocomm_commands.py:356-365 | only a present VLAN id is checked; it passes exactly when it is an integer in 0..4094, and a non-integer gets the not-an-integer message |
| AutocommRows.MtraceErrors | cli/common/mixins/autocomm_commands.py:368-372 | no message exactly when there are as many MTRACE ids as addresses |
| AutocommRows.KeysFor | cli/common/mixins/autocomm_commands.py:311-350 | 4G and 5G select their key tables, case-insensitively; any other radio type keeps the table of the previous row |
| AutocommRows.BtsTypeErrors | cli/common/mixins/autocomm_commands.py:300-308 | no message exactly when the radio type and version are absent or listed, compared as written |
| AutocommRows.CheckBtsRow | cli/common/mixins/autocomm_commands.py:297-372 | a row raises exactly when its radio type is not text or no key table is bound yet; otherwise it is checked against the table its radio type selects |
| AutocommRows.BtsRowPasses | cli/common/mixins/autocomm_commands.py:297-372 | a checked BTS row has no message exactly when all its rules hold |
| AutocommRows.VlanNotIntegerFails | cli/common/mixins/autocomm_commands.py:363-365 | a BTS row whose VLAN id is text but not an integer fails with that message |
| AutocommRows.CellTypeErrors | cli/common/mixins/autocomm_commands.py:866-874 | no message exactly when the radio type and version are absent or listed once upper-cased |
| AutocommRows.IotEntries | cli/common/mixins/autocomm_commands.py:946-961 | one entry per IOT key: a message when a listed product lacks the value or another product carries it |
| AutocommRows.IotErrors | cli/common/mixins/autocomm_commands.py:942-961 | no IOT message exactly when the IOT values are all present for a listed product and all absent for any other |
| AutocommRows.CheckCellRow | cli/common/mixins/autocomm_commands.py:863-961 | a row raises exactly when its radio type is not text, its version is a non-zero number, or no key table is bound yet; otherwise it is checked against the selected table |
| AutocommRows.ZeroAcceptedOnlyForIdKeys | cli/common/mixins/autocomm_commands.py:930-939 | zero counts as a value only for `lncel_fdd_id` and `nbiot_linked_cell_id`; None and "" are missing everywhere, and any other truthy value is present |
| AutocommRows.CellRowPasses | cli/common/mixins/autocomm_commands.py:863-961 | a checked cell row has no message exactly when all its rules hold |
| AutocommRows.CellIdOf | cli/common/mixins/autocomm_commands.py:966 | the LNCEL id shown, or UNKNOWN when there is none |
| AutocommRows.DuOf | cli/common/mixins/autocomm_commands.py:374 | the MRBTS id, or `row<N>` when there is none |
| AutocommRows.NewEntry | cli/common/mixins/autocomm_commands.py:385 | an entry fails exactly when it has messages |
| AutocommRows.KindOf | cli/common/mixins/autocomm_commands.py:385 | a BTS sheet's entries are `bts` and a cell sheet's are `cell-<LNCEL id>` |
| AutocommRows.ScanRow | cli/common/mixins/autocomm_commands.py:286-385 | the loop body handles one row as the step function says |
| AutocommRows.ScanRows | cli/common/mixins/autocomm_commands.py:266-387 | the row loop builds the scan of the sheet, and a row that raises ends it |
| AutocommRows.AbortSticks | cli/common/mixins/autocomm_commands.py:286-387 | once a row has raised, the rest of the sheet is not looked at |
| AutocommRows.ScanEntries | cli/common/mixins/autocomm_commands.py:286-387 | each entry fails exactly when it has messages and carries the sheet's kind, and there are no more entries than rows |
| AutocommFiles.WriteScriptFiles | cli/common/mixins/autocomm_commands.py:1569-1652 | the writer produces exactly the planned files, in BTS, cell, module order, collects exactly the planned messages, and logs one time-stamped line per message |
| AutocommFiles.PlannedFiles | cli/common/mixins/autocomm_commands.py:1583-1640 | one file per BTS entry, cell entry and module entry |
| AutocommFiles.Tagged | cli/common/mixins/autocomm_commands.py:1598-1599 | one `[<file name>] ` line per message of a file |
| AutocommFiles.LogLines | cli/common/mixins/autocomm_commands.py:1645-1648 | one log line per collected message |
| AutocommFiles.SeqMapStep | cli/common/mixins/autocomm_commands.py:1584-1586 | a DU id met again keeps its hundred, a new one takes the next hundred and the counter moves on |
| AutocommFiles.Base | cli/common/mixins/autocomm_commands.py:1584-1588 | a DU's sequence base is a positive multiple of 100, and base/100 is its one-based position among the DUs' first appearances |
| AutocommFiles.BaseOfSeen | cli/common/mixins/autocomm_commands.py:1588 | the hundred recorded while writing equals the DU's position among first appearances over all entries, times 100 |
| AutocommFiles.AppendTagged | cli/common/mixins/autocomm_commands.py:1598-1599 | the inner loop appends exactly the file's tagged messages |
| AutocommFiles.BtsPhase | cli/common/mixins/autocomm_commands.py:1582-1599 | the BTS loop writes exactly the BTS files and their messages, and leaves the DU map consistent with the DUs met |
| AutocommFiles.CellPhase | cli/common/mixins/autocomm_commands.py:1601-1622 | the cell loop writes exactly the cell files and their messages, each cell numbered after its DU's earlier cells |
| AutocommFiles.ModIdxStart | cli/common/mixins/autocomm_commands.py:1625 | a DU's module numbering starts where its cells stopped, and at 1 for a DU without cells |
| AutocommFiles.ModPhase | cli/common/mixins/autocomm_commands.py:1624-1640 | the module loop writes exactly the module files |
| AutocommFiles.LogPhase | cli/common/mixins/autocomm_commands.py:1642-1649 | the log gets one time-stamped line per message, and nothing when there is none |
| AutocommFiles.BaseBlocks | cli/common/mixins/autocomm_commands.py:1578-1630 | every DU owns a block of one hundred numbers from 100 on; blocks of different DUs do not overlap and follow the order in which the DUs are first met |
| AutocommFiles.CellsConsecutive | cli/common/mixins/autocomm_commands.py:1610-1613 | the cells of one DU take consecutive numbers in sheet order, the first right after the DU's hundred |
| AutocommFiles.ModsAfterCells | cli/common/mixins/autocomm_commands.py:1625-1634 | a DU's module scripts are numbered after all its cell scripts |
| AutocommFiles.ModsConsecutive | cli/common/mixins/autocomm_commands.py:1632-1634 | the modules of one DU take consecutive numbers, the first right after the DU's last cell |
| BaseTool.ChangedReports | cli/common/base_tool.py:339-346 | a parameter is reported for a distName exactly when the object is in both files, the parameter is in A, and its value in B is present and differs; the report pairs A's value with B's, and a parameter only in B is never reported |
| BaseTool.CompareSelf | cli/common/base_tool.py:331-348 | a file compared with itself shows no changed object |
| BaseTool.SortedMembers | cli/common/base_tool.py:335-336 | `sorted(set)` lists exactly the members of the set, in strictly increasing order |
| BaseTool.DiffOf | cli/common/base_tool.py:340-344 | the inner loop collects exactly the changed values of one shared object |
| BaseTool.CompareScfDicts | cli/common/base_tool.py:331-348 | exactly the distNames only in B and only in A, each sorted, and the changed values of exactly the shared objects that have some |
| BaseTool.StrippedCell | cli/common/base_tool.py:254-259 | a non-blank cell is stripped, a blank one is None |
| BaseTool.RawRowOf | cli/common/base_tool.py:222-260 | a row is kept exactly when it is not marked Removed, its technology is SRAN, 4G, 5G or LTE, and it has a name and an MO path; the class is the path's last segment and the parent the one before, if any |
| BaseTool.RawRowOptions | cli/common/base_tool.py:222-260 | the first pass judges every row on its own |
| BaseTool.EnsureClass | cli/common/base_tool.py:268-269 | the class is present afterwards and nothing already there is lost |
| BaseTool.AddChild | cli/common/base_tool.py:271-275 | the child is listed below the parent afterwards, at most once, and every other class is unchanged |
| BaseTool.Register | cli/common/base_tool.py:268-275 | the row's class is present and, when it has a parent class, listed once among that parent's children |
| BaseTool.PlaceParam | cli/common/base_tool.py:284-304 | a row with a parent structure becomes a field of the list of that name, replacing any non-list entry; a non-structure row of multiplicity 2 or more becomes a list with one `val` field; any other row a scalar entry; a multiplicity that is not an integer, or a list-typed scalar under the structure's name, raises; no other parameter changes |
| BaseTool.AddRow | cli/common/base_tool.py:262-304 | one kept row makes its class present, registers it below its parent and keeps children lists free of repeats |
| BaseTool.CatalogChildrenDistinct | cli/common/base_tool.py:271-275 | in the finished catalog no class is listed twice below the same parent |
| BaseTool.CatalogHasClasses | cli/common/base_tool.py:262-275 | every kept row's class is in the catalog and its parent lists it |
| BaseTool.BuildMoParamDict | cli/common/base_tool.py:218-304 | the two loops of the converter build exactly the catalog of the kept rows, or stop at the first row that raises |
| BaseTool.KeptRows | cli/common/base_tool.py:222-260 | the first loop keeps exactly the rows `RawRows` keeps, in sheet order |
| BaseTool.CatalogOfRows | cli/common/base_tool.py:262-304 | the second loop registers the kept rows in order and gives exactly their catalog, or None once a row raises |
| BaseTool.FormulaKey | cli/common/base_tool.py:103-124 | a row gets a key exactly when its technology is listed and it has a name, an MO class and a formula; the key is the last segment of its stripped MO class path, `::`, and its stripped name |
| BaseTool.FormulaDictKeys | cli/common/base_tool.py:102-128 | a key is in the formula catalog exactly when some qualifying row has it |
| BaseTool.FormulaDictHas | cli/common/base_tool.py:124-128 | every qualifying row's key is in the catalog |
| BaseTool.FormulaDictWitness | cli/common/base_tool.py:124-128 | every key of the catalog comes from a qualifying row |
| BaseTool.FormulaDictLast | cli/common/base_tool.py:124-128 | a key's entry is that of the last qualifying row with that key |
| BaseTool.BuildFormulaDict | cli/common/base_tool.py:99-128 | the row loop builds exactly the formula catalog |
| BaseTool.FirstVersion | cli/common/base_tool.py:131-134 | the index of the first part starting with "24" or "25", or None when no part does |
| BaseTool.VersionOf | cli/common/base_tool.py:130-134 | the first `_`-separated part of the file name starting with "24" or "25", or "unknown" when none does |
| BaseTool.ExtractVersion | cli/common/base_tool.py:130-134 | the loop finds exactly that version |
| AdminCliCommands.NextRequestId | cli/common/mixins/admincli_commands.py:12-15 | the current request id is handed out and the counter moves on by one |
| AdminCliCommands.TwoRequestIds | cli/common/mixins/admincli_commands.py:12-15 | two requests in a row get consecutive, hence distinct, ids |
| AdminCliCommands.DummyFlags | cli/common/mixins/admincli_commands.py:87-97 | one flag per dummy key, raised exactly when some distName contains the key |
| AdminCliCommands.RaiseFlags | cli/common/mixins/admincli_commands.py:94-97 | one object's distName raises exactly the flags of the keys it contains, and keeps the raised ones |
| AdminCliCommands.CheckDummies | cli/common/mixins/admincli_commands.py:83-99 | False without a tree; otherwise True exactly when every key is contained in some distName |
| AdminCliCommands.CheckDummyExists4G | cli/common/mixins/admincli_commands.py:77-103 | True exactly when RMOD-32767, LNCEL-65534 and LNCEL-65535 each occur in some distName |
| AdminCliCommands.CheckDummyExists5G | cli/common/mixins/admincli_commands.py:105-130 | True exactly when RMOD-31 and NRCELL-6144 each occur in some distName |
| AdminCliCommands.LongerIdCounts | cli/common/mixins/admincli_commands.py:96 | the test is a substring test, so an id that starts with a dummy's id passes too |
| AdminCliCommands.AllMentionedGrows | cli/common/mixins/admincli_commands.py:93-99 | adding objects never turns a passed check into a failed one |
| AdminCliCommands.SetKillDummyFlag | cli/common/mixins/admincli_commands.py:66-69 | 4G and 5G, upper-cased, set `kill_dummy_flag` to their check's result; any other radio type leaves it as it was |
| AdminCliCommands.FirstSmod | cli/common/mixins/admincli_commands.py:167-171 | the first object whose class ends in SMOD and whose distName contains SMOD-1, or None when there is none |
| AdminCliCommands.FirstCode | cli/common/mixins/admincli_commands.py:193-199 | the first table entry whose code is the planned code, or None when none is |
| AdminCliCommands.MatchRu | cli/common/mixins/admincli_commands.py:193-199 | the RU type of the first entry with the planned code; None exactly when no entry has it |
| AdminCliCommands.DuOfRu | cli/common/mixins/admincli_commands.py:205-225 | on 4G the first two letters, upper-cased, decide (AS gives DU20, FS gives FSMF); on 5G the whole name (ASIK gives DU10, ASIL gives DU20); anything else gives no DU type |
| AdminCliCommands.DuDecisionSteps | cli/common/mixins/admincli_commands.py:163-225 | no SMOD-1 object stops with its message; a DU type is chosen only after a planned product code, a non-empty table, a matching non-empty RU type and a radio type of 4G or 5G, and whenever all of these hold the RU type's DU type is chosen; `du_type` is left unbound only by a radio type other than 4G and 5G |
| AdminCliCommands.DuArgOfDecision | cli/common/mixins/admincli_commands.py:231 | every DU type the decision gives is accepted by `set-du-type` as it is |
| AdminCliCommands.SetDuTypeFromSmod | cli/common/mixins/admincli_commands.py:158-234 | a failed step logs its message and changes nothing else; an unbound `du_type` logs the caught error; a decided DU type is set as `set-du-type` would set it, with the fetched rulebook and schema (None when a fetch fails); the RU type is left alone |
| AdminCliCommands.SetDecidedDu | cli/common/mixins/admincli_commands.py:230-234 | the decided DU type is stored; an unsupported combination is logged as the caught error with the rulebook and schema kept; otherwise they become the fetched rulebook and schema and nothing is logged |
| AdminCliCommands.CommandForMode | cli/common/mixins/admincli_commands.py:354-360 | commission exactly in bts mode, recommission exactly in cell mode, and no command in any other mode |
| AdminCliCommands.SkipArg | cli/common/mixins/admincli_commands.py:432-436 | the arguments parse exactly when every word is `--skip` or a prefix of it, and the flag is set exactly when there is such a word |
| AdminCliCommands.SkipArgForms | cli/common/mixins/admincli_commands.py:432-436 | no argument skips nothing, `--skip` and its prefixes skip, any other word is refused |
| AdminCliCommands.Record | cli/common/mixins/admincli_commands.py:372-377 | `cmd_status` follows the server's answer, and a refusal is logged; the RU type is left alone |
| AdminCliCommands.ApplyBtsCfg | cli/common/mixins/admincli_commands.py:342-380 | without a committed file, or outside bts and cell mode, only an error is logged; otherwise one request under the mode's command carries the next request id, the file, and neither skip nor activate, and the answer is recorded |
| AdminCliCommands.ActBtsCfg | cli/common/mixins/admincli_commands.py:412-453 | the checks of apply-bts-cfg, then a usage error for arguments argparse refuses; otherwise the request activates the file and skips validation exactly when `--skip` was given |
| AdminCliInterface.TagAt | cli_server/ext/admincli_interface.py:385-386 | a match of `$KEY = word` at one position captures a non-empty word without whitespace |
| AdminCliInterface.SearchFrom | cli_server/ext/admincli_interface.py:385-386 | `re.search` takes the leftmost match, and its capture is a word |
| AdminCliInterface.ExtractQueryResult | cli_server/ext/admincli_interface.py:383-397 | the query is the `$QUERY` word; the result is the `$RESULT` word when that is non-empty, otherwise the whole stripped text when it is a dotted quad, otherwise the (missing or empty) `$RESULT` word; the query never falls back |
| AdminCliInterface.NqQueryResultOf | cli_server/ext/admincli_interface.py:371-374 | the object keeps the text and the extracted query and result |
| AdminCliInterface.GetValue | cli_server/ext/admincli_interface.py:376-381 | any key other than query and result gives None |
| AdminCliInterface.GetValueOf | cli_server/ext/admincli_interface.py:376-381 | query reads back the `$QUERY` word and result the extracted result |
| AdminCliInterface.TagAbsent | cli_server/ext/admincli_interface.py:385-388 | a text without `$KEY` has no value for that key |
| AdminCliInterface.TagAtParts | cli_server/ext/admincli_interface.py:385 | the match consists of the tag, whitespace, '=', whitespace and the word up to the next whitespace or the end |
| AdminCliInterface.TagOfLine | cli_server/ext/admincli_interface.py:385-388 | after a prefix free of '$', `$KEY = word` followed by whitespace or the end gives the word with spaces and ';' stripped from both ends |
| AdminCliInterface.Parsed | cli_server/ext/admincli_interface.py:361-365 | unparseable blocks are skipped, so there are never more blocks than candidates |
| AdminCliInterface.ScanFromOk | cli_server/ext/admincli_interface.py:355-367 | every block handed to the parser is brace-balanced, holds a '{' and ends its last line |
| AdminCliInterface.CandidatesBalanced | cli_server/ext/admincli_interface.py:355-367 | every candidate of a text has as many '{' as '}' and holds a '{' |
| AdminCliInterface.ScanAppend | cli_server/ext/admincli_interface.py:351-367 | scanning two runs of lines is scanning the first, then the second from where it left off |
| AdminCliInterface.LinesInOrder | cli_server/ext/admincli_interface.py:351-367 | blocks come out in input order: after lines that leave no block open, the blocks of what follows are appended to theirs |
| AdminCliInterface.QuietLine | cli_server/ext/admincli_interface.py:355-357 | outside a block, a line without '{' leaves the scan where it was |
| AdminCliInterface.OneLineBlock | cli_server/ext/admincli_interface.py:355-367 | a single balanced line holding a '{' is a block of its own |
| AdminCliInterface.ScanLine | cli_server/ext/admincli_interface.py:355-367 | the loop body follows the step function on one cleaned line |
| AdminCliInterface.ScanNext | cli_server/ext/admincli_interface.py:351-354 | each line is stripped, and a leading `CLI LOG:` removed, before it is scanned |
| AdminCliInterface.ExtractJsonBlocks | cli_server/ext/admincli_interface.py:345-369 | the loop returns exactly the parseable candidate blocks, in input order |
| AdminCliInterface.RenderPath | cli_server/ext/admincli_interface.py:333-340 | one shown step per path step |
| AdminCliInterface.RenderSteps | cli_server/ext/admincli_interface.py:333-340 | a key is shown as itself and a list position as `[i]` |
| AdminCliInterface.ChildrenSize | cli_server/ext/admincli_interface.py:328-341 | the frames pushed for a value are smaller, together, than the value |
| AdminCliInterface.PopShrinks | cli_server/ext/admincli_interface.py:328-341 | popping a frame and pushing its members shrinks the stack, so the search ends |
| AdminCliInterface.FirstKey | cli_server/ext/admincli_interface.py:332-335 | the first member with the key, or None when no member has it |
| AdminCliInterface.ProcessSound | cli_server/ext/admincli_interface.py:326-341 | every reported pair is a value found at the reported path, which ends with the searched key |
| AdminCliInterface.ProcessComplete | cli_server/ext/admincli_interface.py:326-341 | a member with the searched key of any object reachable from a frame on the stack is reported, even one nested inside another match |
| AdminCliInterface.PushMembers | cli_server/ext/admincli_interface.py:332-336 | the object loop pushes exactly its members with their paths and reports exactly those with the key |
| AdminCliInterface.PushItems | cli_server/ext/admincli_interface.py:338-341 | the list loop pushes exactly its items with their positions |
| AdminCliInterface.PopFrame | cli_server/ext/admincli_interface.py:328-341 | one turn of the loop keeps what is reported plus what is left to report, and shrinks the stack |
| AdminCliInterface.SearchBlock | cli_server/ext/admincli_interface.py:326-341 | the search of one block reports exactly what the specification of the stack search gives |
| AdminCliInterface.Shown | cli_server/ext/admincli_interface.py:333-340 | each reported pair with its path as shown |
| AdminCliInterface.FindJsonWithKey | cli_server/ext/admincli_interface.py:320-343 | the loop over the blocks reports exactly the pairs of every block, block by block |
| AdminCliInterface.FindAllSound | cli_server/ext/admincli_interface.py:320-343 | over all blocks, every reported pair is found in some block at its path, which ends with the searched key |
| AdminCliInterface.FindAllComplete | cli_server/ext/admincli_interface.py:320-343 | over all blocks, a member with the searched key of any object in any block is reported at its path |
| ExecutionHelper.ParseCommit | cli_server/common/execution_helper.py:35 | the six fields join back to the payload, the first five hold no separator, and fewer than six pieces raise |
| ExecutionHelper.FirstWithFrom | cli_server/common/execution_helper.py:49-50 | the first line holding the pattern, or None when no line does |
| ExecutionHelper.FindFirstWith | cli_server/common/execution_helper.py:49-56 | the loop finds exactly that first line |
| ExecutionHelper.InsertHeader | cli_server/common/execution_helper.py:48-56 | the guarded insertion gives exactly the specified lines |
| ExecutionHelper.WithHeaderShape | cli_server/common/execution_helper.py:48-56 | without a `<header>` line the block goes right after the first `<cmData` line and nothing else moves; with one, or without a `<cmData` line, nothing changes |
| ExecutionHelper.WithHeaderIdempotent | cli_server/common/execution_helper.py:48-56 | a header block is inserted at most once: committing the result again adds nothing |
| ExecutionHelper.CommitXml | cli_server/common/execution_helper.py:45-66 | the saved document is the standard declaration and `<raml>` line, then the body; an empty document raises |
| ExecutionHelper.CommitBodyHeader | cli_server/common/execution_helper.py:46-60 | dropping the first two lines of a declared document cuts the list that already holds the header, so the block survives exactly when the first `<cmData` line is not the first line |
| ExecutionHelper.PyJoinSuffix | cli_server/common/execution_helper.py:290-298 | `os.path.join` keeps the suffix of its components from the last absolute one, or all of them, and only its first component may be absolute |
| ExecutionHelper.PyJoinRelative | cli_server/common/execution_helper.py:290-298 | components none of which is absolute are joined as they are |
| ExecutionHelper.JoinNameIsPyJoin | cli_server/common/execution_helper.py:290-298 | joining a relative directory and a name gives the name alone when it is absolute and the directory and the name otherwise |
| ExecutionHelper.CommitPlan | cli_server/common/execution_helper.py:32-96 | the document is saved exactly when the payload splits, decodes, is not empty and the workspace has a `bts_id`; it goes to `os.path.join` of `data/received/<bts_id>/<file name>` (`PyJoin`), with a `.meta.txt` holding the stripped message exactly when there is one |
| ExecutionHelper.HandleCommit | cli_server/common/execution_helper.py:32-96 | without an active workspace, or when the plan fails, only the error reply; otherwise the planned files are written, their path becomes the workspace's `final_file` and is the reply; the workspace's other fields (cell, tree, match tail, class, prompt) and its station variables are unchanged |
| ExecutionHelper.RFindBelow | cli_server/common/execution_helper.py:234 | the last occurrence of the separator, or None when there is none |
| ExecutionHelper.TaskKeyTail | cli_server/common/execution_helper.py:233-235 | the key is the text after the last `__` and holds no `__`; a name without `__` has the empty key |
| ExecutionHelper.KeptFiles | cli_server/common/execution_helper.py:218-226 | exactly the regular files of the directory with the requested extension |
| ExecutionHelper.InsertBy | cli_server/common/execution_helper.py:229-238 | inserting keeps every element and adds the new one |
| ExecutionHelper.InsertBySorted | cli_server/common/execution_helper.py:229-238 | inserting into a sorted list keeps it sorted |
| ExecutionHelper.SortBy | cli_server/common/execution_helper.py:229-238 | the sorted list is a permutation of the input, sorted by name, by task key, or newest first |
| ExecutionHelper.ShowGlb | cli_server/common/execution_helper.py:203-248 | a payload that is not three fields or has a non-integer limit gets the error reply; otherwise the placeholder for an empty listing, and for a non-empty one (names non-empty and newline-free) a text whose lines are exactly the listed names, in the listing's order |
| ExecutionHelper.ShownFilesSpec | cli_server/common/execution_helper.py:217-242 | the listing holds only kept regular files, in the requested order, and is the first `limit` of them when `limit` is positive and all of them otherwise |
| ExecutionHelper.SaveFile | cli_server/common/execution_helper.py:252-317 | a payload that is not three fields is rejected; content that is not base64 raises before the purpose is looked up; an unknown purpose is rejected with its name; a known purpose saves at `os.path.join` of its directory and the name, an absolute name replacing the directory, in the day's directory when the purpose uses one and the name holds no "/"; a binary name is written as the decoded bytes; any other name as their UTF-8 text, appended for logs and overwritten otherwise; bytes that are not UTF-8 raise only after the text file has been opened (created when missing, emptied in "w" mode), and the failure records that path and mode, while every other raise records no file |
| ExecutionHelper.OpenedBeforeDecode | cli_server/common/execution_helper.py:301-312 | a text upload whose bytes are not UTF-8 has already opened exactly the file, in exactly the mode, that the same upload with decodable bytes would have written |
| ExecutionHelper.SavePathJoined | cli_server/common/execution_helper.py:290-298 | the saved path is `os.path.join` of the save directory and the name, for a day that is not absolute |
| ExecutionHelper.SaveDirJoin | cli_server/common/execution_helper.py:290-298 | joining the save directory and the name gives the name alone when it is absolute, and otherwise the directory, the day's directory when used, and the name |
| ExecutionHelper.SaveUtf8Irrelevant | cli_server/common/execution_helper.py:286-310 | a binary name or an unknown purpose is answered the same whatever the UTF-8 decoding gives |
| ExecutionHelper.SavePurposes | cli_server/common/execution_helper.py:269-300 | for decodable content, only the five purposes are saved, and logs, auto-commissioning files and CLI scripts go into the day's directory exactly when the name holds no "/" |
| ExecutionHelper.DeleteFile | cli_server/common/execution_helper.py:374-401 | a payload without a separator raises; another purpose is rejected with that purpose; for autocomm the target is the name below the purpose's directory, or the name itself when it is absolute; a regular file there is deleted, a missing one reported, and anything else (a directory) makes the removal raise, each exactly |
| ExecutionHelper.DeletePathJoined | cli_server/common/execution_helper.py:388-392 | the delete target is `os.path.join` of data/autocomm and the name |
| ExecutionHelper.AutocommDeleteTarget | cli_server/common/execution_helper.py:290-400 | a plain name saved for autocomm lands in the day's directory while deleting that name targets the purpose's directory itself, so the two paths never meet |
| ExecutionHelper.FilterSwEntries | cli_server/common/execution_helper.py:485-495 | the loop gives exactly the partition into first occurrences and skipped duplicates |
| ExecutionHelper.PartitionIds | cli_server/common/execution_helper.py:485-495 | every base station goes on to the update exactly once, in the order first met |
| ExecutionHelper.PartitionSkipped | cli_server/common/execution_helper.py:485-495 | no entry is lost: each goes on to the update or yields a skipped result, and a skipped station is one that is updated |
| ExecutionHelper.QuoteFrom | cli_server/common/execution_helper.py:464 | the next '"' from a position, or None when there is none |
| ExecutionHelper.QuotedAt | cli_server/common/execution_helper.py:464 | a match of `"key" : "value"` at a position captures a value without '"' |
| ExecutionHelper.MessagesFrom | cli_server/common/execution_helper.py:464 | every message found holds no '"' |
| ExecutionHelper.MessagesOccur | cli_server/common/execution_helper.py:464 | every message found occurs in the text between two quotes |
| ExecutionHelper.UpdateOutcome | cli_server/common/execution_helper.py:438-482 | an update succeeds exactly when the IP lookup gave an IP, the software file exists and the update did not raise; a reported failure keeps the raw text |
| ExecutionHelper.FailReason | cli_server/common/execution_helper.py:464-465 | the last `requestMessage`, or the default text when there is none |
| ExecutionHelper.UpdateAll | cli_server/common/execution_helper.py:497-504 | one outcome per station that goes on to the update |
| ExecutionHelper.HandleInitSwVer | cli_server/common/execution_helper.py:431-510 | the skipped results, then one outcome per station; with the updates run one after another the last station stays active, and its workspace ends with neither a station id nor an IP |
| ExecutionHelper.Activate | cli_server/common/execution_helper.py:440-447 | the station becomes active; a known workspace is reused and the list is unchanged, an unknown id gets a fresh workspace as `__init__` leaves it, added under that id; the active workspace's variables are exactly its old ones with `bts_id` set and, when the lookup gave one, `bts_ip`; every other workspace keeps its variables, and no workspace changes any other field |
| ExecutionHelper.ForgetStation | cli_server/common/execution_helper.py:508-510 | the active workspace forgets the IP and the station id, and keeps its other variables and every other field |
| ExecutionHelper.RecordOutcome | cli_server/common/execution_helper.py:503-504 | one more station's outcome is appended to the results gathered so far |
| CommandHandler.DestBtsPlan | cli_server/core/handler/command_handler.py:38-63 | dest-bts always answers, and stores only a usable looked-up address |
| CommandHandler.DestBtsLookupFailure | cli_server/core/handler/command_handler.py:40-51 | a lookup that gives None, "" or 0.0.0.0 never writes, and fails the command exactly when no manual address exists |
| CommandHandler.DestBtsKeepsManual | cli_server/core/handler/command_handler.py:41-59 | a manual address is never overwritten: a different looked-up address draws the warning and the command succeeds |
| CommandHandler.DestBtsStores | cli_server/core/handler/command_handler.py:60-63 | without a manual address, or with the same one, a usable looked-up address is stored and reported |
| CommandHandler.DestBtsSuccess | cli_server/core/handler/command_handler.py:38-63 | dest-bts fails exactly when the station is left without a usable address |
| CommandHandler.Entry | cli_server/core/workspace/ws_manager.py:14-24 | a new station gets a fresh workspace holding only its id, a removed one none, and a known one its own |
| CommandHandler.DestBtsRemoved | cli_server/core/handler/command_handler.py:38-59 | for a removed station the manager's `RESULT::OK` is read as a manual address, so a failed lookup still succeeds |
| CommandHandler.DestBts | cli_server/core/handler/command_handler.py:23-63 | the station becomes active, with a new workspace as `__init__` leaves it when it was unknown; its workspace holds the reconciled address, the answer is the plan's, no other workspace changes, and no workspace changes a field other than its variables |
| CommandHandler.Arguments | cli_server/core/handler/command_handler.py:66-72 | a splitter error is the parse-error reply, a wrong word count the usage reply, and otherwise exactly the words |
| CommandHandler.SetBtsReply | cli_server/core/handler/command_handler.py:65-86 | a refused payload gets the refusal as the answer |
| CommandHandler.SetBts | cli_server/core/handler/command_handler.py:65-86 | with exactly two words the station becomes active, with a new workspace as `__init__` leaves it when it was unknown, and its workspace holds the given address; otherwise nothing changes; no other workspace changes, and no workspace changes a field other than its variables |
| CommandHandler.SetThenDestKeeps | cli_server/core/handler/command_handler.py:38-86 | an address set by hand survives a later dest-bts of the same station, whatever the lookup gives, and that dest-bts succeeds |
| CommandHandler.Field | cli_server/core/handler/command_handler.py:135-136 | a member's value, present exactly when some member has the key |
| CommandHandler.FieldOr | cli_server/core/handler/command_handler.py:254-255 | `dict.get` with a default: the default exactly when the key is absent |
| CommandHandler.RouteFallback | cli_server/core/handler/command_handler.py:310-313 | an unknown command goes to `handle_default`, which `ExecutionHelper` does not define, so the answer is the AttributeError reply |
| CommandHandler.KindHandlers | cli_server/core/handler/command_handler.py:206-301 | of the commands the `elif` chain forwards, eleven name a method `ExecutionHelper` defines and nine name one it does not |
| CommandHandler.RouteForwards | cli_server/core/handler/command_handler.py:206-301 | a command whose handler exists reaches it with the payload unchanged, and every handler the router calls is one `ExecutionHelper` defines |
| CommandHandler.RouteMissing | cli_server/core/handler/command_handler.py:165-173 | the nine commands whose handler is missing answer with the AttributeError naming it; `check-soam` fails with the AttributeError for `getSwVersionStatus` |
| CommandHandler.RouteIntendedForwards | cli_server/core/handler/command_handler.py:165-313 | as intended, every forwarded command reaches the handler it names with its payload, an unknown one reaches `handle_default` with the stripped line, and the handled ones are routed as written |
| CommandHandler.ListFinding | cli_server/core/handler/command_handler.py:215-216 | `list` with an empty payload fails as written and reaches `handle_list` as intended |
| CommandHandler.RouteArity | cli_server/core/handler/command_handler.py:88-114 | auto-inte reaches the integration exactly with five words, auto-deinte the de-integration exactly with one |
| CommandHandler.CommissionDefaults | cli_server/core/handler/command_handler.py:249-267 | commissioning uses the workspace's `final_file`, and a flag the payload leaves out is False |
| CommandHandler.SshNeedsIp | cli_server/core/handler/command_handler.py:175-201 | the SSH test is attempted only for an active workspace with an address, and targets that address |
| CommandHandler.SwUpdateNeedsFile | cli_server/core/handler/command_handler.py:129-156 | a software update starts only for a named station and an existing file |
| CommandHandler.Handle | cli_server/core/handler/command_handler.py:88-308 | the commands the servicer answers itself never hand over to an `ExecutionHelper` method |
| CommandHandler.SwUpdatePlan | cli_server/core/handler/command_handler.py:129-163 | `update-sw-ver` is answered by the servicer, never handed over |
| CommandHandler.SshPlan | cli_server/core/handler/command_handler.py:175-204 | `check-ssh` is answered by the servicer, never handed over |
| CommandHandler.CommissionPlan | cli_server/core/handler/command_handler.py:249-268 | `commission` and `recommission` are answered by the servicer, never handed over |
| CommandHandler.SendCommand | cli_server/core/handler/command_handler.py:17-316 | dest-bts, set-bts and dest-bts-ip are carried out as specified and change only the active workspace's variables (a new one starting as `__init__` leaves it); every other command is answered by the router as written (`Route`, missing handlers included) and changes no workspace; no workspace changes a field other than its variables |

## Left out

- NoMo: runs the corrected `TreeNav.NoMoSpec`. As written (`TreeNav.NoMoAsWritten`), every well-formed `no-mo` on a station raises `AttributeError`.
- AddAutoPa: runs the corrected `TreeNav.AddAutoPaSpec`. As written (`TreeNav.AddAutoPaAsWritten`), a request with no object at the current path raises `UnboundLocalError`.
- ChgMoId: runs the corrected `TreeNav.ChgMoIdSpec`, which renames only the path's own segment. As written (`TreeNav.ChgMoIdAsWritten`), the old segment is replaced everywhere in each distName.
- RulebookToDict: converts with the corrected `ToolCommands.ConvertMo`. As written (`ToolCommands.ConvertMoAsWritten`), an object with no distName and a named parameter aborts the conversion with `KeyError`.
- ConvertAll: its loop is proved equal to the corrected conversion `RuleJsonOf`, not to the as-written one. `ToolCommands.ConvertMoAgrees` shows the two agree on every object that has a distName.
- HandleInitSwVer: runs the updates one after another, in the order of the filtered entries, and appends their results in that order. The source runs them on five worker threads that share one `active_ws`. So there, the order of the results, the station left active and the workspace each `set("bts_ip")` lands in all depend on scheduling.
- base64 and UTF-8 decoding are parameters: `decode` (both together) for a commit, `b64` and `utf8` one after the other for a saved file. The JSON parser is the `parse` parameter.
- `shlex.split`: on the server it is the `words` parameter. On the client it is `Text.SplitWs`, Python's `str.split()` (used in the set, tool, template and admincli commands). The two agree on words without quotes or backslashes; a quoted argument with spaces in it is split.
- The file system is modelled by parameters. File modification times are integers. The directory listing is the order of the given `dir` sequence. `os.path.isfile` and `os.path.exists` are the `exists_` parameter; for a deletion the `kind` parameter says whether the target is missing, a regular file or something else. Creating directories and opening files for a save are assumed to succeed; a text file is opened (created when missing, and emptied when the mode is "w") before its bytes are decoded, which `SaveRaised.truncated` records.
- File paths are modelled relative to the data directory. The absolute prefix taken from `__file__` is left out.
- Regular expressions: `\s` and `\d` match ASCII characters only.
- SetCommands.ParseRuArgs: reads `--band 850` and `-f 850` only. The `--band=850` form and abbreviated option names, which argparse also accepts, are refused as usage errors.
- AdminCliCommands.ActBtsCfg: argparse accepts a lone `--` separator (no `--skip`), which the model refuses as a usage error. `-h` gives the usage error in both, but the help text argparse prints first is not modelled.
- Text.SplitLines: used for template files read with `for line in f`, it also ends lines at the rarer `str.splitlines` separators (`\v`, `\f`, `\x1c`-`\x1e`, `\x85`, `\u2028`, `\u2029`). Python's file iteration ends them at `\n`, `\r` and `\r\n` only.
- Text.ParseInt: refuses digits grouped with underscores such as `1_000`, which Python's `int()` accepts.
- `AdminCliResult.getValue` is left out. It reads the undefined attribute `self.keys`, so every call raises.
- The printing inside `convertStrToJson` is left out.
- The subprocess methods of `AdminCliInterface` are left out: commissioning, SCF generation, software update and the rest. They are external programs. `getBtsIpFromNaQuery` is the `lookup` parameter.
- ping and ssh subprocesses are left out.
- Exception texts are modelled by their fixed prefix, such as `"[서버 오류] "`, without the text of the Python exception.
- The outer "Exception: " handler and the debug prints are left out.
- Server handlers outside the core are modelled as routing only: `handle_commit_cli`, `handle_set_cfg_scf`, `handle_get_ref_xml`, `handle_update_current_xml`, `handle_get_file`, `handle_list_tmpl` and `handle_list_script`.
- The external calls behind `getHwInfo`, `activateplan` and `generateScf` are parameters that supply their answers. `check-soam` calls `getSwVersionStatus`, which `AdminCliInterface` does not define, so it always fails.
- Messages are English paraphrases of the Korean originals in most modules, on the client and on the server (the tree, commit, set, tool, autocomm, admincli and init commands, the base tool, and several server replies). What each message reports, and which branch logs it, is kept; the Korean wording is not. The replies that the routing lemmas depend on, such as `"Exception: "` and `"[check-soam 오류] "`, keep the source's text.
- The `set_commands` operations outside the core are left out: `do_set_ru_para`, `do_set_cfg_tmpl`, `_get_current_param_value` and `_execute_ru_template_script`.
- The client loaders outside the core are left out: `load_param_dict`, `load_mo_param_dict`, `load_ru_dict` and `strip_header_and_namespace`.
- Commits: namespace stripping and XML pretty-printing are left out. So is the second request of the CLI upload.
- `_create_managed_object`'s template hooks (tree_commands.py:178-260) are left out. For an RMOD/ASIRMOD object the hook loads the RU table, sets `prodCodePlanned`, records `last_rmod_id` and, on 5G, adds the module to the sync target list. It then runs the antenna or phyant template that `ru_template_map` names for the RU or cell type. For an NRCELL or NRCELLGRP object the hook runs the template chosen from the cell type by `resolve_nrcell_template_key` or `resolve_nrcell_grp_template_key` (the latter is `NrCellGrpMap.Resolve`). Every hook runs `exec-script`, whose commands the model returns as a plan rather than runs.
- RunScript: the script's lines become a plan of actions (`ScriptPlan`), and the actions are returned, not dispatched. The mode and station id are read once, before the first line. In the source, each `onecmd` (tool_commands.py:38-79) can change them for the lines after it.
- AutocommRunScript: like `ExecScript`, returns the body's plan without dispatching it.
- ExecScript: returns the plan that `RunScript` builds without running it. So errors that the dispatched commands would add to `exec_script_errors` are not in the error log it writes.
- The autocommissioning rows are modelled as values. The script text generated from them is left out.
- For each cell row that passes its checks, the cell sheet reader calls `do_set_bts`, `do_dest_bts` and `prepare_dummy_flag` (autocomm_commands.py:975-979). The model's scan does not make those session calls. Each is a server round trip. cli/common/mixins/setup_commands.py, where the two client commands live, is not part of this model; the server side of `set-bts` and `dest-bts` is `CommandHandler`.
- `base_tool` parts left out:
  - the search for the header row and the column map of the spreadsheet;
  - openpyxl and the JSON dump;
  - `do_scf_to_cli`;
  - the printing of `do_compare_scf`;
  - `_parse_scf_to_dict`.
- admincli commands that are server round-trips are left out: the download chain of `do_dnload_bts_cfg`, the download steps of `prepare_dummy_flag`, `do_gethwinfo`, `do_commission`, `do_recommission`, the `*_commission` and `*_old` variants, and `do_activateplan`.
- Rulebook lookup: a lookup by a distName-shaped key that hits a per-class entry is read as no record.
- Rulebook-to-dict: a non-empty formula that does not parse is read as no formula. Python would produce the text of a float there.
- SetCommands.SetDuType: in bts mode it loads its rulebook through the corrected `InitCli.RulebookFile`, not the chain as written (init_cli.py:84). So a bts-mode DU20 station loads the du20 bts file where the source raises `ValueError`, and a 4G bts-mode DU10 station is refused with `ValueError` where the source loads the du20 bts file. `InitCli.RulebookFileFinding` states both inputs.
- SetCommands.ApplyDuType: the loop-free part of `SetDuType`, with the same corrected bts-mode rulebook choice.
- AdminCliCommands.SetDecidedDu: stores the decided DU type through `ApplyDuType`, so it has the same corrected bts-mode rulebook choice.
- AdminCliCommands.SetDuTypeFromSmod: reaches the rulebook through `SetDecidedDu`, so it has the same corrected bts-mode rulebook choice.
- TreeNav.CreateSpec, TreeNav.CreateHooks, TreeCommands.CreateMo, TreeCommands.CreateHooksM: the 5G NRCELL post-create step (tree_commands.py:278-283, with its body `_nrcell_post_create_dedicated_groups` at 379-441) is not modelled. After a 5G NRCELL is created, that step leaves the cell and creates or enters NRCELLGRP and NRPGRP, writes `nrCellList` and `lbpsCellList`, and appends the group id to NRDU-1's `refNrCellGroup`. Its exceptions are swallowed. The model creates the NRCELL and stops there.
- Formula.Forward, Formula.ClientOnce, Formula.ClientTwice, Formula.ServerOnce, Formula.ServerTwice: only the linear shape `(UI_VALUE op offset) * mul / div` is evaluated. Any other formula text is `Unsupported`, and the functions return their input for it. The source `eval`s any expression, so for example `UI_VALUE*10` applied to "3" gives "30" on the client and "30.0" on the server, where the model gives "3". Values are exact reals rather than Python floats, so float rounding in the arithmetic is not modelled, and the server's float formatting is the `showFloat` parameter.
- Formula.ParseDecimal: reads only an optional sign and a plain decimal (`12`, `-1.5`, `.5`, `3.`) between ASCII blanks. Python's `float()` also reads exponents (`1e3`), `inf`, `nan`, underscore-grouped digits (`1_0`) and Unicode whitespace and digits. The model reads all of those as not a number, so the formula functions return the input text unchanged for them.
- Text.IsDigits, Text.Strip: test and strip ASCII digits and ASCII whitespace only. Python's `str.isdigit` and `str.strip` follow Unicode (for example full-width digits, or the no-break space).
- ToolCommands.MoId: reads the class name literally. The source puts the class name into the pattern `<class>-(\d+)` without escaping, so a class holding a regular-expression metacharacter would match differently there. Catalog class names are letters and digits.
- SetCommands.OverlayEntry, SetCommands.OverlayRecord: a list rule named by the template keeps its children and gains no `value` key. In the source, `param_dict[key]["value"] = new_val` adds one (set_commands.py:289). The rulebook replay tells a list by its `type` and reads only its `children` (tree_commands.py:643-657), so the added key has no effect there.
- TreeNav.VariantToNrcell: models `_variant_to_nrcell_from_variant` as its body reads. That function is declared without `self` or `@staticmethod`, so its only call, `self._variant_to_nrcell_from_variant(variant)` (tree_commands.py:1639), raises `TypeError`. The caller, `_resolve_channel_directions`, belongs to the RMOD template hooks, which are left out.
- AdminCliCommands.SetDuTypeFromSmod: a `prodCodePlanned` with no text is reported as a missing value, not as the `AttributeError` the source catches. The tree model does not tell empty text from absent text.

## Findings

| source | as written | input that shows it | evidently intended | confidence | as-written member | corrected member |
|---|---|---|---|---|---|---|
| cli/core/config/init_cli.py:84 | the fourth branch of the rulebook choice tests DU10 but loads the du20 bts file | bts mode with DU20 raises `ValueError`; 4G bts mode with DU10 loads the du20 bts file | the fourth branch tests DU20 and selects the du20 bts rulebook | high, not executed | InitCli.RulebookFileAsWritten, InitCli.RulebookFileFinding | InitCli.RulebookFile |
| cli/common/mixins/autocomm_commands.py:626 | `du_type.upper == "DU20"` compares the bound method with a string, which is always false | an LTE station with DU20 gets no FHS dummy block | `du_type.upper() == "DU20"` | high, not executed | AutocommCommands.LteDummyAsWritten, AutocommCommands.Du20DummyDropped | AutocommCommands.LteDummyFor |
| cli/common/mixins/tool_commands.py:343-438 | the parameter of an object without a distName is stored under `result[dist]` before that key exists | an object with no distName and one named parameter raises `KeyError` | such an object is skipped, or its key is created first | medium, not executed | ToolCommands.ConvertMoAsWritten, ToolCommands.DnLessObjectAborts | ToolCommands.ConvertMo, ToolCommands.ConvertMoAgrees |
| cli/common/mixins/tree_commands.py:732 | `no-mo` reads `cur_mo_dist`, which the session never sets | any valid `no-mo` with the station id set raises `AttributeError` | the check uses the current path | high, not executed | TreeNav.NoMoAsWritten, TreeNav.NoMoFinding | TreeNav.NoMoSpec |
| cli/common/mixins/tree_commands.py:1043-1048 | `target_mo` is bound only when an object is found at the current path | `add-auto-pa` with no object at the current path raises `UnboundLocalError` | an error message that no object was found | high, not executed | TreeNav.AddAutoPaAsWritten, TreeNav.AddAutoPaFinding | TreeNav.AddAutoPaSpec |
| cli/common/mixins/tree_commands.py:1700-1708 | the old id segment is replaced everywhere in each distName | EQM-1 renamed to 2 with a child APEQM-1 gives `MRBTS-1/EQM-2/APEQM-2` | only the renamed segment changes: `MRBTS-1/EQM-2/APEQM-1` | high, not executed | TreeNav.ChgMoIdAsWritten, TreeNav.ChgMoIdFinding | TreeNav.ChgMoIdSpec, TreeNav.ChgMoIdFindingCorrected |
| cli_server/core/handler/command_handler.py:206-313 | nine commands are forwarded to `ExecutionHelper` methods that do not exist (`handle_tgt_bts`, `handle_list`, `handle_default` and six more), and `check-soam` calls a missing `getSwVersionStatus` | command `list` with payload `""` answers `Exception: 'ExecutionHelper' object has no attribute 'handle_list'` | each command reaches the handler it names | high, not executed | CommandHandler.ListFinding, CommandHandler.RouteMissing | CommandHandler.RouteIntendedForwards |
