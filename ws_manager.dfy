// The registry of workspaces by base-station id (cli_server/core/workspace/ws_manager.py).

module WsManager {
  import opened Wrappers
  import opened Workspace

  /** What `getBtsIp` gives: nothing when no id is known, a KeyError for an unknown id, an
      AttributeError for a removed workspace, and otherwise the stored `bts_ip`. */
  datatype IpResult = NoId | UnknownId | RemovedWs | Ip(ip: Option<string>)

  /** Python truthiness of an optional id */
  predicate Truthy(id: Option<string>) { id.Some? && id.value != "" }

  class Manager {
    var wsList: map<string, WorkSpace?>
    var activeWs: WorkSpace?
    var activeId: Option<string>

    constructor()
      ensures wsList == map[] && activeWs == null && activeId.None?
    {
      wsList, activeWs, activeId := map[], null, None;
    }

    /** `setActive`: a known id reuses its entry (which is None once removed), an unknown id gets
        a fresh workspace whose `bts_id` is the id. */
    method SetActive(id: string) returns (reply: string)
      modifies this
      ensures reply == "RESULT::OK" && activeId == Some(id)
      ensures id in old(wsList) ==> wsList == old(wsList) && activeWs == old(wsList)[id]
      ensures id !in old(wsList) ==>
                activeWs != null && fresh(activeWs) && wsList == old(wsList)[id := activeWs]
                && activeWs.bts == map["bts_id" := Some(id)] && activeWs.cell == map[] && InitialRest(activeWs)
    {
      if |wsList| > 0 && id in wsList {
        activeWs := wsList[id];
      } else {
        var ws := new WorkSpace();
        ws.Set("bts_id", Some(id));
        wsList := wsList[id := ws];
        activeWs := ws;
      }
      activeId := Some(id);
      reply := "RESULT::OK";
    }

    method GetActive(id: string) returns (ws: WorkSpace?)
      ensures id in wsList ==> ws == wsList[id]
      ensures id !in wsList ==> ws == null
    {
      ws := if id in wsList then wsList[id] else null;
    }

    /** `getBtsIp`: a falsy id falls back to the active id. */
    method GetBtsIp(id: Option<string>) returns (r: IpResult)
      ensures var k := if Truthy(id) then id else activeId;
              if !Truthy(k) then r == NoId
              else if k.value !in wsList then r == UnknownId
              else if wsList[k.value] == null then r == RemovedWs
              else r == Ip(wsList[k.value].Get("bts_ip"))
    {
      var k := id;
      if !Truthy(k) {
        k := activeId;
      }
      if !Truthy(k) {
        return NoId;
      }
      if k.value !in wsList {
        return UnknownId;
      }
      var ws := wsList[k.value];
      if ws == null {
        return RemovedWs;
      }
      r := Ip(ws.Get("bts_ip"));
    }

    /** `set`: writes into the active workspace only; a no-op when none is active. */
    method Set(key: string, v: Option<string>) returns (reply: string)
      modifies activeWs
      ensures reply == "RESULT::OK"
      ensures activeWs != null ==> activeWs.bts == old(activeWs.bts)[key := v] && activeWs.cell == old(activeWs.cell)
      ensures activeWs != null ==> SameRest(activeWs)
    {
      if activeWs != null {
        activeWs.Set(key, v);
      }
      reply := "RESULT::OK";
    }

    /** `get`: the active workspace's value, or the text "RESULT::OK" when none is active. */
    method Get(key: string) returns (r: Option<string>)
      ensures activeWs != null ==> r == activeWs.Get(key)
      ensures activeWs == null ==> r == Some("RESULT::OK")
    {
      if activeWs != null {
        r := activeWs.Get(key);
      } else {
        r := Some("RESULT::OK");
      }
    }

    /** `remove_ws`: the id stays registered, mapped to None. */
    method RemoveWs(id: string) returns (reply: string)
      modifies this
      ensures wsList == old(wsList)[id := null] && id in wsList
      ensures activeWs == old(activeWs) && activeId == old(activeId)
      ensures reply == "RESULT::OK"
    {
      wsList := wsList[id := null];
      reply := "RESULT::OK";
    }

    /** `getWorkspace`: the active workspace. */
    method GetWorkspace() returns (ws: WorkSpace?)
      ensures ws == activeWs
    {
      ws := activeWs;
    }
  }
}
