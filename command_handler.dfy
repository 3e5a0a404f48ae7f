// The gRPC entry point of the server: `SendCommand` in cli_server/core/handler/command_handler.py.
// It answers the station-selection commands itself, checks the arguments of the integration
// commands, and forwards everything else to the execution helper or to the admin CLI. The
// network, the admin CLI, `check_ping`, `ssh` and the file system are outside the model: what
// the handler would hand to them is returned as an `Action`.

module CommandHandler {
  import opened Wrappers
  import opened Text
  import opened WsManager
  import opened Workspace
  import opened ExecutionHelper
  import AdminCliInterface

  type Json = AdminCliInterface.Json

  /** What one request leads to: a reply given by the handler itself, or the call it hands on. */
  datatype Action =
    | Answer(reply: Reply)
    | Helper(handler: string, arg: string)
    | Integrate(args: seq<string>)
    | Deintegrate(btsId: string)
    | Ping(ip: Option<string>)
    | SwUpdate(station: Json, inputFile: string, activate: Json, overrideRu: Json)
    | SwStatus(btsId: string)
    | Ssh(btsId: string, argv: seq<string>)
    | HwInfo
    | Commission(again: bool, file: Option<string>, skip: Json, activate: Json)
    | ActivatePlan(btsId: string)
    | GenerateScf(scfStation: Option<string>)
    | InitSwVer(entries: Json)

  const ParseError := "인자 파싱 오류: "
  const SetBtsUsage := "인자 오류: BTS_ID, IP가 필요합니다."
  const AutoInteUsage := "인자 오류: BTS_ID, VER, MR, NE_NAME, BTS_IP가 필요합니다."
  const AutoDeinteUsage := "인자 오류: BTS_ID가 필요합니다."
  const Failure := "Exception: "
  const Ok := "RESULT::OK"

  // ---------------------------------------------------------------------------------------
  // dest-bts

  /** The lookup found nothing usable: no address, an empty one, or "0.0.0.0". */
  predicate LookupFailed(ip: Option<string>)
  {
    !Truthy(ip) || ip.value == "0.0.0.0"
  }

  function SetText(id: string, ip: string): string
  {
    "BTS " + id + " 설정 -> IP: " + ip
  }

  function KeptText(id: string, manual: string): string
  {
    "BTS " + id + " 설정됨 (조회 실패, 수동 입력 IP " + manual + " 유지)"
  }

  function NoIpText(id: string): string
  {
    "BTS " + id + " 설정됨 (IP 조회 실패, 수동 입력 없음)"
  }

  function WarnText(manual: string, ip: string): string
  {
    "[경고] 수동 입력 IP(" + manual + ")와 조회된 IP(" + ip + ")가 다릅니다. 입력값(" + manual + ")을 유지합니다."
  }

  /** The answer to `dest-bts` and the address it stores, if any. */
  datatype DestPlan = DestPlan(reply: Reply, store: Option<string>)

  /** `dest-bts` once the station is active: `ip` is what the network lookup gave and `manual`
      what the workspace already holds under `bts_ip`. */
  function DestBtsPlan(id: string, ip: Option<string>, manual: Option<string>): (p: DestPlan)
    ensures p.reply.Reply?
    ensures p.store.Some? ==> p.store == ip && !LookupFailed(ip)
  {
    if LookupFailed(ip) then
      if Truthy(manual) then DestPlan(Reply(true, KeptText(id, manual.value)), None)
      else DestPlan(Reply(false, NoIpText(id)), None)
    else if Truthy(manual) && manual != ip then
      DestPlan(Reply(true, WarnText(manual.value, ip.value)), None)
    else
      DestPlan(Reply(true, SetText(id, ip.value)), ip)
  }

  /** The address the workspace holds after `dest-bts`. */
  function After(p: DestPlan, manual: Option<string>): Option<string>
  {
    if p.store.Some? then p.store else manual
  }

  /** A failed lookup never writes, and fails the command exactly when no manual address exists. */
  lemma DestBtsLookupFailure(id: string, ip: Option<string>, manual: Option<string>)
    requires LookupFailed(ip)
    ensures var p := DestBtsPlan(id, ip, manual);
            p.store.None? && (p.reply.success <==> Truthy(manual))
            && (Truthy(manual) ==> p.reply.result == KeptText(id, manual.value))
  {
  }

  /** A manual address is never overwritten by a different looked-up one: the command warns and
      succeeds. */
  lemma DestBtsKeepsManual(id: string, ip: Option<string>, manual: Option<string>)
    requires Truthy(manual)
    ensures var p := DestBtsPlan(id, ip, manual);
            After(p, manual) == manual && p.reply.success
    ensures !LookupFailed(ip) && manual != ip ==>
              DestBtsPlan(id, ip, manual).reply.result == WarnText(manual.value, ip.value)
  {
  }

  /** Without a manual address (or with the same one) a usable lookup result is stored. */
  lemma DestBtsStores(id: string, ip: Option<string>, manual: Option<string>)
    requires !LookupFailed(ip) && (!Truthy(manual) || manual == ip)
    ensures var p := DestBtsPlan(id, ip, manual);
            p.store == ip && p.reply == Reply(true, SetText(id, ip.value))
  {
  }

  /** `dest-bts` fails exactly when the station is left without a usable address, and a
      success always leaves one. */
  lemma DestBtsSuccess(id: string, ip: Option<string>, manual: Option<string>)
    ensures var p := DestBtsPlan(id, ip, manual);
            (p.reply.success <==> Truthy(After(p, manual)))
  {
  }

  /** The bts variables of the workspace that `setActive(id)` makes active: a fresh one holding
      only `bts_id`, nothing for a removed one, or the registered one. */
  function Entry(m: Manager, id: string): (r: Option<map<string, Option<string>>>)
    reads m, Spaces(m)
    ensures id !in m.wsList ==> r == Some(map["bts_id" := Some(id)])
    ensures id in m.wsList && m.wsList[id] == null ==> r.None?
  {
    if id !in m.wsList then Some(map["bts_id" := Some(id)])
    else if m.wsList[id] == null then None
    else
      assert m.wsList[id] in Spaces(m);
      Some(m.wsList[id].bts)
  }

  /** What `ws_manager.get("bts_ip")` answers once that workspace is active; the manager answers
      "RESULT::OK" when the active entry is a removed workspace. */
  function ManualIp(e: Option<map<string, Option<string>>>): Option<string>
  {
    if e.None? then Some(Ok) else Read(e.value, "bts_ip")
  }

  /** Selecting a removed station reads the manager's "RESULT::OK" as a manual address, so a
      failed lookup is reported as success and a working one only draws a warning. */
  lemma DestBtsRemoved(id: string, ip: Option<string>)
    ensures var p := DestBtsPlan(id, ip, ManualIp(None));
            p.reply.success && p.store == (if ip == Some(Ok) then ip else None)
  {
  }

  /** The state `dest-bts` leaves behind, given the registry `before` it started from and the
      entry `e` of the station it selects: the station is active and its workspace holds the
      reconciled address. */
  predicate DestBtsDone(m: Manager, before: map<string, WorkSpace?>, e: Option<map<string, Option<string>>>,
                        id: string, ip: Option<string>, reply: Reply)
    reads m, m.activeWs
  {
    var p := DestBtsPlan(id, ip, ManualIp(e));
    reply == p.reply && m.activeId == Some(id)
    && (id in before ==> m.wsList == before && m.activeWs == before[id])
    && (id !in before ==> m.activeWs != null && m.wsList == before[id := m.activeWs])
    && (m.activeWs == null <==> e.None?)
    && (m.activeWs != null ==>
          m.activeWs.bts == if p.store.Some? then e.value["bts_ip" := p.store] else e.value)
  }

  /** `dest-bts`: activates the station, looks its address up and reconciles it with the manual
      one. */
  method DestBts(m: Manager, payload: string, lookup: string -> Option<string>) returns (reply: Reply)
    modifies m, Spaces(m)
    ensures DestBtsDone(m, old(m.wsList), old(Entry(m, Strip(payload))), Strip(payload), lookup(Strip(payload)), reply)
    ensures Strip(payload) !in old(m.wsList) ==> fresh(m.activeWs)
    ensures Strip(payload) !in old(m.wsList) ==> m.activeWs != null && InitialRest(m.activeWs)
    ensures forall w :: w in old(Spaces(m)) && w != m.activeWs ==> w.bts == old(w.bts)
    ensures forall w :: w in old(Spaces(m)) ==> SameRest(w)
  {
    var id := Strip(payload);
    ghost var e := Entry(m, id);
    var _ := m.SetActive(id);
    assert m.activeWs != null && id in old(m.wsList) ==> m.activeWs in old(Spaces(m));
    var ip := lookup(id);
    var manual := m.Get("bts_ip");
    assert manual == ManualIp(e);
    var p := DestBtsPlan(id, ip, manual);
    if p.store.Some? {
      var _ := m.Set("bts_ip", p.store);
    }
    reply := p.reply;
  }

  // ---------------------------------------------------------------------------------------
  // Argument checks shared by set-bts, auto-inte and auto-deinte

  /** The arguments of a command, or the reply that refuses them. */
  datatype Tokens = Args(args: seq<string>) | Refused(reply: Reply)

  /** `shlex.split(payload.strip())` followed by the count check: `words` is the shell-style
      splitter, None when it raises (an unclosed quote, a trailing escape). */
  function Arguments(words: string -> Option<seq<string>>, payload: string, n: nat, usage: string): (r: Tokens)
    ensures r.Args? <==> words(Strip(payload)).Some? && |words(Strip(payload)).value| == n
    ensures r.Args? ==> r.args == words(Strip(payload)).value && |r.args| == n
    ensures words(Strip(payload)).None? ==> r == Refused(Raised(ParseError))
    ensures words(Strip(payload)).Some? && r.Refused? ==> r.reply == Reply(false, usage)
  {
    match words(Strip(payload))
    case None => Refused(Raised(ParseError))
    case Some(t) => if |t| == n then Args(t) else Refused(Reply(false, usage))
  }

  /** The answer to `set-bts`. */
  function SetBtsReply(t: Tokens): (r: Reply)
    ensures t.Refused? ==> r == t.reply
  {
    match t
    case Refused(r) => r
    case Args(a) => if |a| == 2 then Reply(true, SetText(a[0], a[1])) else Reply(false, SetBtsUsage)
  }

  /** The state `set-bts` leaves, given the registry `before` and the active workspace `ws0`
      it started from and the entry `e` of the first argument: on two arguments the first is the
      active station and the second its stored address; otherwise nothing changes. */
  predicate SetBtsDone(m: Manager, before: map<string, WorkSpace?>, ws0: WorkSpace?, id0: Option<string>,
                       e: Option<map<string, Option<string>>>, t: Tokens, reply: Reply)
    reads m, m.activeWs
  {
    reply == SetBtsReply(t)
    && (t.Refused? ==> m.wsList == before && m.activeWs == ws0 && m.activeId == id0)
    && (t.Args? && |t.args| == 2 ==>
          var id := t.args[0];
          m.activeId == Some(id)
          && (id in before ==> m.wsList == before && m.activeWs == before[id])
          && (id !in before ==> m.activeWs != null && m.wsList == before[id := m.activeWs])
          && (m.activeWs == null <==> e.None?)
          && (m.activeWs != null ==> m.activeWs.bts == e.value["bts_ip" := Some(t.args[1])]))
  }

  /** The entry `set-bts` selects: that of its first argument, if it has one. */
  function SetBtsEntry(m: Manager, t: Tokens): Option<map<string, Option<string>>>
    reads m, Spaces(m)
  {
    if t.Args? && |t.args| > 0 then Entry(m, t.args[0]) else None
  }

  /** `set-bts BTS_ID IP`: activates the station and records the address given by hand. */
  method SetBts(m: Manager, payload: string, words: string -> Option<seq<string>>) returns (reply: Reply)
    modifies m, Spaces(m)
    ensures var t := Arguments(words, payload, 2, SetBtsUsage);
            SetBtsDone(m, old(m.wsList), old(m.activeWs), old(m.activeId), old(SetBtsEntry(m, t)), t, reply)
    ensures var t := Arguments(words, payload, 2, SetBtsUsage);
            t.Args? && |t.args| == 2 && t.args[0] !in old(m.wsList) ==>
              m.activeWs != null && fresh(m.activeWs) && InitialRest(m.activeWs)
    ensures forall w :: w in old(Spaces(m)) && w != m.activeWs ==> w.bts == old(w.bts)
    ensures forall w :: w in old(Spaces(m)) ==> SameRest(w)
  {
    var t := Arguments(words, payload, 2, SetBtsUsage);
    if t.Refused? {
      return t.reply;
    }
    var id, ip := t.args[0], t.args[1];
    ghost var e := Entry(m, id);
    var _ := m.SetActive(id);
    assert m.activeWs != null && id in old(m.wsList) ==> m.activeWs in old(Spaces(m));
    var _ := m.Set("bts_ip", Some(ip));
    reply := Reply(true, SetText(id, ip));
  }

  /** An address set by hand survives a later `dest-bts` of the same station, whatever the
      lookup gives, and that `dest-bts` succeeds. */
  lemma SetThenDestKeeps(vars: map<string, Option<string>>, id: string, ip: string, looked: Option<string>)
    requires ip != ""
    ensures var manual := ManualIp(Some(vars["bts_ip" := Some(ip)]));
            var p := DestBtsPlan(id, looked, manual);
            After(p, manual) == Some(ip) && p.reply.success
  {
    var manual := ManualIp(Some(vars["bts_ip" := Some(ip)]));
    assert manual == Some(ip);
    DestBtsKeepsManual(id, looked, manual);
  }

  // ---------------------------------------------------------------------------------------
  // Routing of the remaining commands

  /** The methods `ExecutionHelper` defines (cli_server/common/execution_helper.py). */
  const Defined: set<string> := {
    "handle_commit", "handle_commit_cli", "handle_set_cfg_scf", "handle_get_ref_xml",
    "handle_update_current_xml", "handle_show_glb", "handle_save_file", "handle_get_file",
    "handle_delete_file", "handle_list_tmpl", "handle_list_script", "handle_init_sw_ver"}

  /** How the `elif` chain of `SendCommand` (in its order) treats a command other than the three
      that change the workspaces: forwarded to an `ExecutionHelper` method that exists, forwarded to one
      that does not, handled by the servicer itself, or left to the final `else`. */
  datatype Kind = Forwarded(handler: string) | Unforwarded(handler: string) | Handled | Unknown

  function KindOf(cmd: string): Kind
  {
    match cmd
    case "auto-inte" => Handled
    case "auto-deinte" => Handled
    case "check-ping" => Handled
    case "update-sw-ver" => Handled
    case "check-soam" => Handled
    case "check-ssh" => Handled
    case "tgt_bts" => Unforwarded("handle_tgt_bts")
    case "no_tgt_bts" => Unforwarded("handle_no_tgt_bts")
    case "default" => Unforwarded("handle_default")
    case "list" => Unforwarded("handle_list")
    case "commit" => Forwarded("handle_commit")
    case "commit-cli" => Forwarded("handle_commit_cli")
    case "show_cfg" => Unforwarded("handle_show_cfg")
    case "set-cfg-scf" => Forwarded("handle_set_cfg_scf")
    case "show-glb" => Forwarded("handle_show_glb")
    case "show_sib" => Unforwarded("handle_show_sib")
    case "delmo" => Unforwarded("handle_delmo")
    case "go_top" => Unforwarded("handle_go_top")
    case "getHwInfo" => Handled
    case "commission" => Handled
    case "recommission" => Handled
    case "activateplan" => Handled
    case "generateScf" => Handled
    case "getRefXml" => Forwarded("handle_get_ref_xml")
    case "updateCurrentXml" => Forwarded("handle_update_current_xml")
    case "rulebook" => Unforwarded("handle_rulebook_file")
    case "saveFile" => Forwarded("handle_save_file")
    case "getFile" => Forwarded("handle_get_file")
    case "deleteFile" => Forwarded("handle_delete_file")
    case "listTmpl" => Forwarded("handle_list_tmpl")
    case "listScript" => Forwarded("handle_list_script")
    case "init-sw-ver" => Handled
    case _ => Unknown
  }

  /** A forwarded command names a method `ExecutionHelper` defines, an unforwarded one a method
      it does not. */
  lemma KindHandlers(cmd: string)
    ensures KindOf(cmd).Forwarded? ==> KindOf(cmd).handler in Defined
    ensures KindOf(cmd).Unforwarded? ==> KindOf(cmd).handler !in Defined
  {
  }

  /** The text of Python's AttributeError for a method an object's class does not define. */
  function NoAttribute(owner: string, name: string): string
  {
    "'" + owner + "' object has no attribute '" + name + "'"
  }

  /** The reply to a command whose handler is missing from `ExecutionHelper`. */
  function MissingReply(handler: string): Reply
  {
    Reply(false, Failure + NoAttribute("ExecutionHelper", handler))
  }

  const SoamError := "[check-soam 오류] "

  /** The commands that change the workspaces. */
  const Writers: set<string> := {"dest-bts", "set-bts", "dest-bts-ip"}

  /** `dict.get`: the value json.loads kept for `k` (the last duplicate), if any. */
  function Field(ms: seq<AdminCliInterface.Member>, k: string): (r: Option<Json>)
    ensures r.Some? <==> exists i :: 0 <= i < |ms| && ms[i].key == k
    ensures r.Some? ==> exists i :: 0 <= i < |ms| && ms[i].key == k && ms[i].val == r.value
                                    && forall q :: i < q < |ms| ==> ms[q].key != k
    decreases |ms|
  {
    if ms == [] then None
    else if ms[|ms| - 1].key == k then Some(ms[|ms| - 1].val)
    else
      var r := Field(ms[..|ms| - 1], k);
      assert forall i :: 0 <= i < |ms| - 1 ==> ms[..|ms| - 1][i] == ms[i];
      r
  }

  /** `dict.get(k, d)`. */
  function FieldOr(ms: seq<AdminCliInterface.Member>, k: string, d: Json): (r: Json)
    ensures (forall i :: 0 <= i < |ms| ==> ms[i].key != k) ==> r == d
    ensures Field(ms, k).Some? ==> r == Field(ms, k).value
  {
    match Field(ms, k)
    case None => d
    case Some(v) => v
  }

  const SwUpdateError := "[update-sw-ver 오류] "
  const NoSwFile := "[서버 오류] 파일이 존재하지 않습니다: "

  /** `update-sw-ver`: the payload is a JSON object naming the station and a file under
      data/sw_files; `exists_` says which files are there. */
  function SwUpdatePlan(data: Option<Json>, exists_: string -> bool): (r: Action)
    ensures !r.Helper?
  {
    match data
    case Some(JObj(ms)) =>
      var id := Field(ms, "bts_id");
      var f := Field(ms, "input_file");
      if id.None? || f.None? || !f.value.JStr? then Answer(Raised(SwUpdateError))
      else if !exists_(f.value.str) then Answer(Raised(NoSwFile))
      else SwUpdate(id.value, f.value.str, FieldOr(ms, "shouldActivate", AdminCliInterface.JBool(true)),
                    FieldOr(ms, "overrideIndependentRUSW", AdminCliInterface.JBool(true)))
    case _ => Answer(Raised(SwUpdateError))
  }

  /** `check-ssh`: needs an active workspace with an address; the connection test itself is the
      returned `ssh` command line. */
  function SshPlan(id: string, active: Option<map<string, Option<string>>>): (r: Action)
    ensures !r.Helper?
  {
    if active.None? then Answer(Raised("[check-ssh 오류] "))
    else
      var ip := Read(active.value, "bts_ip");
      if !Truthy(ip) then Answer(Reply(false, "[" + id + "]의 IP가 설정되어 있지 않습니다."))
      else Ssh(id, ["ssh", "-o", "BatchMode=yes", "-o", "ConnectTimeout=5", "nokia@" + ip.value, "exit"])
  }

  /** `commission` / `recommission`: the active workspace's `final_file`, and the two flags of
      the JSON payload, each False when absent. */
  function CommissionPlan(again: bool, data: Option<Json>, active: Option<map<string, Option<string>>>): (r: Action)
    ensures !r.Helper?
  {
    if data.None? || active.None? || !data.value.JObj? then Answer(Raised(Failure))
    else
      var ms := data.value.members;
      Commission(again, Read(active.value, "final_file"),
                 FieldOr(ms, "skip", AdminCliInterface.JBool(false)),
                 FieldOr(ms, "activate", AdminCliInterface.JBool(false)))
  }

  /** Every command other than the three that change the workspaces: `active` is the active
      workspace's variables (None when there is none) and `ip` what `getBtsIp(payload)` gives. */
  function Route(cmd: string, payload: string, words: string -> Option<seq<string>>,
                 parse: string -> Option<Json>, exists_: string -> bool,
                 active: Option<map<string, Option<string>>>, ip: IpResult): Action
  {
    match KindOf(cmd)
    case Forwarded(h) => Helper(h, payload)
    case Unforwarded(h) => Answer(MissingReply(h))
    case Unknown => Answer(MissingReply("handle_default"))
    case Handled => Handle(cmd, payload, words, parse, exists_, active, ip)
  }

  /** The commands the servicer handles itself. */
  function Handle(cmd: string, payload: string, words: string -> Option<seq<string>>,
                  parse: string -> Option<Json>, exists_: string -> bool,
                  active: Option<map<string, Option<string>>>, ip: IpResult): (r: Action)
    ensures !r.Helper?
  {
    if cmd == "auto-inte" then
      match Arguments(words, payload, 5, AutoInteUsage)
      case Refused(r) => Answer(r)
      case Args(a) => Integrate(a)
    else if cmd == "auto-deinte" then
      match Arguments(words, payload, 1, AutoDeinteUsage)
      case Refused(r) => Answer(r)
      case Args(a) => if |a| == 1 then Deintegrate(a[0]) else Answer(Reply(false, AutoDeinteUsage))
    else if cmd == "check-ping" then
      match ip
      case NoId => Ping(None)
      case Ip(v) => Ping(v)
      case _ => Answer(Raised(Failure))
    else if cmd == "update-sw-ver" then SwUpdatePlan(parse(payload), exists_)
    else if cmd == "check-soam" then Answer(Reply(false, SoamError + NoAttribute("AdminCliInterface", "getSwVersionStatus")))
    else if cmd == "check-ssh" then SshPlan(Strip(payload), active)
    else if cmd == "getHwInfo" then (if parse(payload).None? then Answer(Raised(Failure)) else HwInfo)
    else if cmd == "commission" || cmd == "recommission" then CommissionPlan(cmd == "recommission", parse(payload), active)
    else if cmd == "activateplan" then ActivatePlan(Strip(payload))
    else if cmd == "generateScf" then GenerateScf(if active.None? then None else Read(active.value, "bts_id"))
    else
      match parse(payload)
      case None => Answer(Raised("[init-sw-ver 실패] "))
      case Some(j) => InitSwVer(j)
  }

  /** An unknown command would go to `handle_default`, which `ExecutionHelper` does not define, so
      it fails with the AttributeError text. */
  lemma RouteFallback(cmd: string, payload: string, words: string -> Option<seq<string>>,
                      parse: string -> Option<Json>, exists_: string -> bool,
                      active: Option<map<string, Option<string>>>, ip: IpResult)
    requires KindOf(cmd) == Unknown
    ensures Route(cmd, payload, words, parse, exists_, active, ip) == Answer(MissingReply("handle_default"))
    ensures "handle_default" !in Defined
  {
  }

  /** A command with an existing handler reaches it with the payload unchanged, and every handler
      the router calls is one `ExecutionHelper` defines. */
  lemma RouteForwards(cmd: string, payload: string, words: string -> Option<seq<string>>,
                      parse: string -> Option<Json>, exists_: string -> bool,
                      active: Option<map<string, Option<string>>>, ip: IpResult)
    ensures KindOf(cmd).Forwarded? ==> Route(cmd, payload, words, parse, exists_, active, ip) == Helper(KindOf(cmd).handler, payload)
    ensures var a := Route(cmd, payload, words, parse, exists_, active, ip);
            a.Helper? ==> KindOf(cmd).Forwarded? && a.handler in Defined
  {
    KindHandlers(cmd);
  }

  /** A command whose handler is missing, and `check-soam`, always fail: the reply names the
      method the lookup did not find. */
  lemma RouteMissing(cmd: string, payload: string, words: string -> Option<seq<string>>,
                     parse: string -> Option<Json>, exists_: string -> bool,
                     active: Option<map<string, Option<string>>>, ip: IpResult)
    ensures KindOf(cmd).Unforwarded? ==>
              KindOf(cmd).handler !in Defined
              && Route(cmd, payload, words, parse, exists_, active, ip) == Answer(MissingReply(KindOf(cmd).handler))
    ensures Route("check-soam", payload, words, parse, exists_, active, ip)
            == Answer(Reply(false, SoamError + NoAttribute("AdminCliInterface", "getSwVersionStatus")))
  {
    KindHandlers(cmd);
  }

  /** The routing the code evidently intends: the nine commands whose handler is missing, and
      the fallback, reach the handler they name, and `check-soam` asks the admin CLI for the
      station's software status; everything else is routed as written. */
  function RouteIntended(cmd: string, payload: string, words: string -> Option<seq<string>>,
                         parse: string -> Option<Json>, exists_: string -> bool,
                         active: Option<map<string, Option<string>>>, ip: IpResult): Action
  {
    match KindOf(cmd)
    case Unforwarded(h) => Helper(h, payload)
    case Unknown => Helper("handle_default", Strip(cmd + " " + payload))
    case _ => if cmd == "check-soam" then SwStatus(Strip(payload)) else Route(cmd, payload, words, parse, exists_, active, ip)
  }

  /** As intended, no command fails for want of a handler: each of the twenty forwarded commands
      reaches its own handler with its payload, an unknown one reaches `handle_default` with the
      stripped line "command payload", and the handled ones other than `check-soam` are routed
      as the code routes them. */
  lemma RouteIntendedForwards(cmd: string, payload: string, words: string -> Option<seq<string>>,
                              parse: string -> Option<Json>, exists_: string -> bool,
                              active: Option<map<string, Option<string>>>, ip: IpResult)
    ensures var a := RouteIntended(cmd, payload, words, parse, exists_, active, ip);
            && ((KindOf(cmd).Forwarded? || KindOf(cmd).Unforwarded?) ==> a == Helper(KindOf(cmd).handler, payload))
            && (KindOf(cmd) == Unknown ==> a == Helper("handle_default", Strip(cmd + " " + payload)))
            && (KindOf(cmd) == Handled && cmd != "check-soam" ==> a == Route(cmd, payload, words, parse, exists_, active, ip))
  {
  }

  /** `list` with an empty payload: the code answers with the AttributeError, the intended router
      hands it to `handle_list`. */
  lemma ListFinding(words: string -> Option<seq<string>>, parse: string -> Option<Json>,
                    exists_: string -> bool, active: Option<map<string, Option<string>>>, ip: IpResult)
    ensures Route("list", "", words, parse, exists_, active, ip) == Answer(MissingReply("handle_list"))
    ensures RouteIntended("list", "", words, parse, exists_, active, ip) == Helper("handle_list", "")
  {
  }

  /** `auto-inte` reaches the integration exactly with five arguments, `auto-deinte` the
      de-integration exactly with one. */
  lemma RouteArity(payload: string, words: string -> Option<seq<string>>,
                   parse: string -> Option<Json>, exists_: string -> bool,
                   active: Option<map<string, Option<string>>>, ip: IpResult)
    ensures var t := words(Strip(payload));
            (Route("auto-inte", payload, words, parse, exists_, active, ip).Integrate? <==> t.Some? && |t.value| == 5)
            && (Route("auto-inte", payload, words, parse, exists_, active, ip).Integrate? ==>
                  Route("auto-inte", payload, words, parse, exists_, active, ip).args == t.value)
    ensures var t := words(Strip(payload));
            (Route("auto-deinte", payload, words, parse, exists_, active, ip).Deintegrate? <==> t.Some? && |t.value| == 1)
            && (Route("auto-deinte", payload, words, parse, exists_, active, ip).Deintegrate? ==>
                  Route("auto-deinte", payload, words, parse, exists_, active, ip).btsId == t.value[0])
  {
  }

  /** Commissioning uses the workspace's `final_file`, and a flag the payload leaves out is False. */
  lemma CommissionDefaults(again: bool, ms: seq<AdminCliInterface.Member>, vars: map<string, Option<string>>)
    ensures var a := CommissionPlan(again, Some(AdminCliInterface.JObj(ms)), Some(vars));
            a.Commission? && a.again == again && a.file == Read(vars, "final_file")
            && ((forall i :: 0 <= i < |ms| ==> ms[i].key != "skip") ==> a.skip == AdminCliInterface.JBool(false))
            && ((forall i :: 0 <= i < |ms| ==> ms[i].key != "activate") ==> a.activate == AdminCliInterface.JBool(false))
  {
  }

  /** The SSH test is only attempted for an active workspace with an address, and targets it. */
  lemma SshNeedsIp(id: string, active: Option<map<string, Option<string>>>)
    ensures var a := SshPlan(id, active);
            a.Ssh? <==> active.Some? && Truthy(Read(active.value, "bts_ip"))
    ensures var a := SshPlan(id, active);
            a.Ssh? ==> a.argv[5] == "nokia@" + Read(active.value, "bts_ip").value
  {
  }

  /** A software update is only started for a named station and an existing file. */
  lemma SwUpdateNeedsFile(ms: seq<AdminCliInterface.Member>, exists_: string -> bool)
    ensures var a := SwUpdatePlan(Some(AdminCliInterface.JObj(ms)), exists_);
            a.SwUpdate? ==> Field(ms, "bts_id") == Some(a.station) && exists_(a.inputFile)
                            && Field(ms, "input_file") == Some(AdminCliInterface.JStr(a.inputFile))
    ensures var a := SwUpdatePlan(Some(AdminCliInterface.JObj(ms)), exists_);
            a.SwUpdate? && (forall i :: 0 <= i < |ms| ==> ms[i].key != "shouldActivate") ==>
              a.activate == AdminCliInterface.JBool(true)
  {
  }

  // ---------------------------------------------------------------------------------------
  // SendCommand

  /** The active workspace's variables, None when no workspace is active. */
  function ActiveVars(m: Manager): Option<map<string, Option<string>>>
    reads m, m.activeWs
  {
    if m.activeWs == null then None else Some(m.activeWs.bts)
  }

  /** What `getBtsIp(id)` gives. */
  function IpOf(m: Manager, id: Option<string>): IpResult
    reads m, Spaces(m)
  {
    var k := if Truthy(id) then id else m.activeId;
    if !Truthy(k) then NoId
    else if k.value !in m.wsList then UnknownId
    else if m.wsList[k.value] == null then RemovedWs
    else
      assert m.wsList[k.value] in Spaces(m);
      Ip(m.wsList[k.value].Get("bts_ip"))
  }

  /** `SendCommand`: the three workspace-changing commands are carried out here, every other
      command is routed without touching the workspaces. */
  method SendCommand(m: Manager, cmd: string, payload: string, lookup: string -> Option<string>,
                     words: string -> Option<seq<string>>, parse: string -> Option<Json>,
                     exists_: string -> bool) returns (act: Action)
    modifies m, m.activeWs, Spaces(m)
    ensures cmd == "dest-bts" ==>
              act.Answer? && DestBtsDone(m, old(m.wsList), old(Entry(m, Strip(payload))), Strip(payload),
                                         lookup(Strip(payload)), act.reply)
    ensures cmd == "set-bts" ==>
              var t := Arguments(words, payload, 2, SetBtsUsage);
              act.Answer? && SetBtsDone(m, old(m.wsList), old(m.activeWs), old(m.activeId),
                                        old(SetBtsEntry(m, t)), t, act.reply)
    ensures cmd == "dest-bts-ip" ==>
              act == Answer(Reply(true, Ok)) && m.wsList == old(m.wsList) && m.activeWs == old(m.activeWs)
              && m.activeId == old(m.activeId)
              && (m.activeWs != null ==> m.activeWs.bts == old(m.activeWs.bts)["bts_ip" := Some(payload)])
    ensures cmd !in Writers ==>
              act == Route(cmd, payload, words, parse, exists_, old(ActiveVars(m)), old(IpOf(m, Some(payload))))
              && m.wsList == old(m.wsList) && m.activeWs == old(m.activeWs) && m.activeId == old(m.activeId)
    ensures forall w :: w in old(Spaces(m)) && w != m.activeWs ==> w.bts == old(w.bts)
    ensures cmd !in Writers ==> forall w :: w in old(Spaces(m)) ==> w.bts == old(w.bts)
    ensures cmd !in Writers && m.activeWs != null ==> m.activeWs.bts == old(m.activeWs.bts)
    ensures forall w :: w in old(Spaces(m)) ==> SameRest(w)
    ensures old(m.activeWs) != null ==> SameRest(old(m.activeWs))
    ensures cmd == "dest-bts" && Strip(payload) !in old(m.wsList) ==>
              m.activeWs != null && fresh(m.activeWs) && InitialRest(m.activeWs)
    ensures var t := Arguments(words, payload, 2, SetBtsUsage);
            cmd == "set-bts" && t.Args? && |t.args| == 2 && t.args[0] !in old(m.wsList) ==>
              m.activeWs != null && fresh(m.activeWs) && InitialRest(m.activeWs)
  {
    if cmd == "dest-bts" {
      var reply := DestBts(m, payload, lookup);
      return Answer(reply);
    } else if cmd == "set-bts" {
      var reply := SetBts(m, payload, words);
      return Answer(reply);
    } else if cmd == "dest-bts-ip" {
      var ret := m.Set("bts_ip", Some(payload));
      return Answer(Reply(true, ret));
    }
    var ip := NoId;
    if cmd == "check-ping" {
      ip := m.GetBtsIp(Some(payload));
    }
    assert ip == IpOf(m, Some(payload)) || cmd != "check-ping";
    act := Route(cmd, payload, words, parse, exists_, ActiveVars(m), ip);
  }
}
