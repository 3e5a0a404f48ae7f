// The server's per-session configuration (cli_server/core/config/config_manager.py): three
// keys validated against fixed enumerations, and a reference configuration that fills
// itself in from a default table once the other three are known.

module ServerConfig {
  import opened Wrappers
  import Tree

  datatype Val = Null | Str(s: string) | Doc(d: Tree.CmData)

  /** What a `set` call does: stores, or raises ValueError or KeyError. */
  datatype SetOutcome = Stored | ValueError | KeyError

  const ActionCmds: set<string> := {"init", "del", "copy"}
  const RatTypes: set<string> := {"LTE", "4g", "5g"}
  const BtsIds: set<string> := {"147568", "131297", "20000", "50000"}

  const Initial: map<string, Val> :=
    map["action_cmd" := Null, "rat_type" := Null, "tgt_bts" := Null, "reference_config" := Null]

  /** `DEFAULT_XML_MAP` */
  function DefaultXml(action: string, rat: string, bts: string): (r: Option<string>)
    ensures r.Some? <==> (action, rat, bts) in {("init", "4g", "147568"), ("init", "5g", "131297"), ("init", "5g", "147568")}
  {
    if action == "init" && rat == "4g" && bts == "147568" then Some("MRBTS147568.xml")
    else if action == "init" && rat == "5g" && bts == "131297" then Some("5G_DU30_Ref_20240705.xml")
    else if action == "init" && rat == "5g" && bts == "147568" then Some("MRBTS147568.xml")
    else None
  }

  function Lookup(cfg: map<string, Val>, key: string): Val
  {
    if key in cfg then cfg[key] else Null
  }

  /** Python truthiness of a stored value (None and "" are false). */
  predicate Truthy(v: Val)
  {
    v.Doc? || (v.Str? && v.s != "")
  }

  /** `_try_auto_set_reference_config` */
  function AutoFill(cfg: map<string, Val>): (r: map<string, Val>)
    ensures Truthy(Lookup(cfg, "reference_config")) ==> r == cfg
    ensures forall k :: k != "reference_config" ==> Lookup(r, k) == Lookup(cfg, k)
    ensures r.Keys == cfg.Keys || r.Keys == cfg.Keys + {"reference_config"}
  {
    if Truthy(Lookup(cfg, "reference_config")) then cfg
    else
      var a, t, b := Lookup(cfg, "action_cmd"), Lookup(cfg, "rat_type"), Lookup(cfg, "tgt_bts");
      if Truthy(a) && Truthy(t) && Truthy(b) && a.Str? && t.Str? && b.Str? && DefaultXml(a.s, t.s, b.s).Some? then
        cfg["reference_config" := Str(DefaultXml(a.s, t.s, b.s).value)]
      else cfg
  }

  /** The validation of `set`: which outcome a key and value give. */
  function Check(key: string, value: Val): (r: SetOutcome)
    ensures r == KeyError <==> key !in {"action_cmd", "rat_type", "tgt_bts", "reference_config", "xml_tree"}
    ensures key == "action_cmd" ==> (r == Stored <==> value.Str? && value.s in ActionCmds)
    ensures key == "rat_type" ==> (r == Stored <==> value.Str? && value.s in RatTypes)
    ensures key == "tgt_bts" ==> (r == Stored <==> value.Str? && value.s in BtsIds)
    ensures key == "reference_config" || key == "xml_tree" ==> r == Stored
  {
    if key == "action_cmd" then (if value.Str? && value.s in ActionCmds then Stored else ValueError)
    else if key == "rat_type" then (if value.Str? && value.s in RatTypes then Stored else ValueError)
    else if key == "tgt_bts" then (if value.Str? && value.s in BtsIds then Stored else ValueError)
    else if key == "reference_config" || key == "xml_tree" then Stored
    else KeyError
  }

  /** The configuration after `set`: unchanged on an error, otherwise stored and auto-filled. */
  function Updated(cfg: map<string, Val>, key: string, value: Val): map<string, Val>
  {
    if Check(key, value) == Stored then AutoFill(cfg[key := value]) else cfg
  }

  /** A refused set leaves the configuration as it was. */
  lemma RefusedUnchanged(cfg: map<string, Val>, key: string, value: Val)
    requires Check(key, value) != Stored
    ensures Updated(cfg, key, value) == cfg
  {
  }

  /** A stored value other than the reference is read back. */
  lemma GetAfterSet(cfg: map<string, Val>, key: string, value: Val, other: string)
    requires Check(key, value) == Stored && key != "reference_config"
    ensures Lookup(Updated(cfg, key, value), key) == value
    ensures other != key && other != "reference_config" ==>
              Lookup(Updated(cfg, key, value), other) == Lookup(cfg, other)
  {
  }

  /** A reference configuration already set is never overwritten by the auto-fill. */
  lemma ReferenceKept(cfg: map<string, Val>, key: string, value: Val)
    requires Truthy(Lookup(cfg, "reference_config")) && key != "reference_config"
    ensures Lookup(Updated(cfg, key, value), "reference_config") == Lookup(cfg, "reference_config")
  {
    if Check(key, value) == Stored {
      var c := cfg[key := value];
      assert Lookup(c, "reference_config") == Lookup(cfg, "reference_config");
    }
  }

  /** Setting the third of a known triple fills in its default reference configuration. */
  lemma AutoFillFromTable(cfg: map<string, Val>, bts: string)
    requires Lookup(cfg, "reference_config") == Null
    requires Lookup(cfg, "action_cmd") == Str("init") && Lookup(cfg, "rat_type") == Str("4g")
    requires bts == "147568"
    ensures Lookup(Updated(cfg, "tgt_bts", Str(bts)), "reference_config") == Str("MRBTS147568.xml")
  {
    var c := cfg["tgt_bts" := Str(bts)];
    assert Lookup(c, "action_cmd") == Str("init");
    assert Lookup(c, "rat_type") == Str("4g");
  }

  class ConfigManager {
    var config: map<string, Val>

    constructor()
      ensures config == Initial
    {
      config := Initial;
    }

    method Set(key: string, value: Val) returns (outcome: SetOutcome)
      modifies this
      ensures outcome == Check(key, value)
      ensures config == Updated(old(config), key, value)
    {
      outcome := Check(key, value);
      if outcome == Stored {
        config := config[key := value];
        TryAutoSetReference();
      }
    }

    method TryAutoSetReference()
      modifies this
      ensures config == AutoFill(old(config))
    {
      if Truthy(Lookup(config, "reference_config")) {
        return;
      }
      var a, t, b := Lookup(config, "action_cmd"), Lookup(config, "rat_type"), Lookup(config, "tgt_bts");
      if Truthy(a) && Truthy(t) && Truthy(b) && a.Str? && t.Str? && b.Str? {
        var d := DefaultXml(a.s, t.s, b.s);
        if d.Some? {
          config := config["reference_config" := Str(d.value)];
        }
      }
    }

    /** `reset`: every present key becomes None. */
    method Reset()
      modifies this
      ensures config.Keys == old(config).Keys
      ensures forall k :: k in config ==> config[k] == Null
    {
      var todo := config.Keys;
      while todo != {}
        invariant todo <= config.Keys
        invariant config.Keys == old(config).Keys
        invariant forall k :: k in config && k !in todo ==> config[k] == Null
        decreases todo
      {
        var k :| k in todo;
        config := config[k := Null];
        todo := todo - {k};
      }
    }
  }
}
