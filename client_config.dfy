// The client's key/value configuration (cli/core/config/config_manager.py): a fixed set of
// known keys, unknown keys refused with KeyError.

module ClientConfig {
  import opened Wrappers
  import Tree

  /** A stored value: Python's None, a string, a flag, or a parsed tree. */
  datatype Val = Null | Str(s: string) | Flag(b: bool) | Doc(d: Tree.CmData)

  /** The keys `set` accepts; `xml_tree` is not present until first set. */
  const KnownKeys: set<string> := {"dest_bts", "dest_bts_ip", "reference_config", "xml_tree", "cmd_status"}

  /** The configuration right after construction. */
  const Initial: map<string, Val> :=
    map["reference_config" := Null, "dest_bts" := Null, "dest_bts_ip" := Null, "cmd_status" := Null]

  /** `config.get(key)`: an absent key reads as None. */
  function Lookup(cfg: map<string, Val>, key: string): (r: Val)
    ensures key !in cfg ==> r == Null
    ensures key in cfg ==> r == cfg[key]
  {
    if key in cfg then cfg[key] else Null
  }

  /** The configuration after `set(key, value)`, or None where it raises KeyError. */
  function Updated(cfg: map<string, Val>, key: string, value: Val): (r: Option<map<string, Val>>)
    ensures r.Some? <==> key in KnownKeys
    ensures r.Some? ==> r.value.Keys == cfg.Keys + {key}
  {
    if key in KnownKeys then Some(cfg[key := value]) else None
  }

  /** A successful set is read back by `get`, and every other key reads as before. */
  lemma GetAfterSet(cfg: map<string, Val>, key: string, value: Val, other: string)
    requires key in KnownKeys
    ensures Lookup(Updated(cfg, key, value).value, key) == value
    ensures other != key ==> Lookup(Updated(cfg, key, value).value, other) == Lookup(cfg, other)
  {
  }

  /** The fresh configuration holds four keys, all None; `xml_tree` is not among them. */
  lemma InitialShape()
    ensures Initial.Keys == KnownKeys - {"xml_tree"}
    ensures forall k :: k in Initial ==> Initial[k] == Null
    ensures Lookup(Initial, "xml_tree") == Null
  {
  }

  class ConfigManager {
    var config: map<string, Val>

    constructor()
      ensures config == Initial
    {
      config := Initial;
    }

    /** `set`: stores a known key; an unknown key raises KeyError (`ok == false`) and changes nothing. */
    method Set(key: string, value: Val) returns (ok: bool)
      modifies this
      ensures ok <==> Updated(old(config), key, value).Some?
      ensures ok ==> config == Updated(old(config), key, value).value
      ensures !ok ==> config == old(config)
    {
      if key == "dest_bts" || key == "dest_bts_ip" || key == "reference_config"
         || key == "xml_tree" || key == "cmd_status" {
        config := config[key := value];
        ok := true;
      } else {
        ok := false;
      }
    }

    method Get(key: string) returns (r: Val)
      ensures r == Lookup(config, key)
    {
      r := if key in config then config[key] else Null;
    }

    /** `reset`: every present key becomes None, no key is added or removed. */
    method Reset()
      modifies this
      ensures config.Keys == old(config).Keys
      ensures forall k :: k in config ==> config[k] == Null
    {
      var todo := config.Keys;
      while todo != {}
        invariant todo <= config.Keys
        invariant config.Keys == old(config).Keys
        invariant forall k :: k in config && k !in todo ==> config[k] == Null
        decreases todo
      {
        var k :| k in todo;
        config := config[k := Null];
        todo := todo - {k};
      }
    }
  }
}
