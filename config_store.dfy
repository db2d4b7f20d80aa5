/**
  The state of ConfigService as the controller sees it: the catalog of
  configs by key, and one value per (config id, environment id, group).
*/
module ConfigService {
  import opened JavaLang
  import opened Entities

  /** The identity of an instance: at most one value per slot. */
  datatype Slot = Slot(configId: int, envId: int, group: string)

  datatype Store = Store(configs: map<string, Config>, values: map<Slot, string>, nextId: int) {

    /**
      Every config is filed under its own key, and config ids are distinct
      and below the id the next created config receives.
    */
    ghost predicate Valid() {
      && (forall k | k in configs :: configs[k].key == k && configs[k].id < nextId)
      && (forall k1, k2 | k1 in configs && k2 in configs && k1 != k2 :: configs[k1].id != configs[k2].id)
    }
  }

  /** findConfigByKey: the config whose key is exactly key, or null. */
  function FindConfigByKey(s: Store, key: string): (r: Option<Config>)
    ensures r.Some? <==> key in s.configs
    ensures s.Valid() && r.Some? ==> r.value.key == key
  {
    if key in s.configs then Some(s.configs[key]) else None
  }

  /**
    createConfig: files a new config under key, with the next free id. The
    catalog grows by exactly that config; no other config and no value
    changes.
  */
  function CreateConfig(s: Store, key: string, desc: string, configType: ConfigType, projectId: int): (r: Store)
    requires key !in s.configs
    ensures FindConfigByKey(r, key) == Some(Config(s.nextId, key, desc, configType, projectId))
    ensures forall k | k != key :: FindConfigByKey(r, k) == FindConfigByKey(s, k)
    ensures r.configs.Keys == s.configs.Keys + {key} && |r.configs| == |s.configs| + 1
    ensures r.values == s.values
  {
    var m := s.configs[key := Config(s.nextId, key, desc, configType, projectId)];
    assert m.Keys == s.configs.Keys + {key};
    Store(m, s.values, s.nextId + 1)
  }

  /** Filing a config under its own key, with the next free id, keeps the catalog consistent. */
  lemma InsertKeepsValid(s: Store, key: string, c: Config)
    requires s.Valid() && key !in s.configs
    requires c.key == key && c.id == s.nextId
    ensures Store(s.configs[key := c], s.values, s.nextId + 1).Valid()
  {
    var m := s.configs[key := c];
    forall k | k in m ensures m[k].key == k && m[k].id < s.nextId + 1 {
      if k != key { assert m[k] == s.configs[k]; }
    }
    forall k1, k2 | k1 in m && k2 in m && k1 != k2
      ensures m[k1].id != m[k2].id
    {
      if k1 != key && k2 != key {
        assert m[k1] == s.configs[k1] && m[k2] == s.configs[k2];
      }
    }
  }

  /** Creating a config keeps keys and ids consistent and ids distinct. */
  lemma CreateConfigKeepsValid(s: Store, key: string, desc: string, configType: ConfigType, projectId: int)
    requires s.Valid() && key !in s.configs
    ensures CreateConfig(s, key, desc, configType, projectId).Valid()
  {
    var c := Config(s.nextId, key, desc, configType, projectId);
    assert CreateConfig(s, key, desc, configType, projectId) == Store(s.configs[key := c], s.values, s.nextId + 1);
    InsertKeepsValid(s, key, c);
  }

  /** setConfigValue: an upsert of value on the one slot (configId, envId, group). */
  function SetConfigValue(s: Store, configId: int, envId: int, group: string, value: string): (r: Store)
    ensures r.configs == s.configs && r.nextId == s.nextId
    ensures r.values.Keys == s.values.Keys + {Slot(configId, envId, group)}
    ensures r.values[Slot(configId, envId, group)] == value
    ensures forall slot | slot in s.values && slot != Slot(configId, envId, group) :: r.values[slot] == s.values[slot]
  {
    s.(values := s.values[Slot(configId, envId, group) := value])
  }

  /**
    findInstance: the value stored for exactly (config of key, envId, group),
    or null. There is no fallback from a named group to the default group.
  */
  function FindInstance(s: Store, key: string, envId: int, group: string): (r: Option<ConfigInstance>)
    ensures r.Some? <==> key in s.configs && Slot(s.configs[key].id, envId, group) in s.values
    ensures r.Some? ==> r.value.refkey == key && r.value.value == s.values[Slot(s.configs[key].id, envId, group)]
  {
    if key in s.configs && Slot(s.configs[key].id, envId, group) in s.values then
      var c := s.configs[key];
      Some(ConfigInstance(c.id, envId, group, key, s.values[Slot(c.id, envId, group)]))
    else None
  }

  /** A value just set is what findInstance returns for the same key, environment and group. */
  lemma SetThenFind(s: Store, key: string, envId: int, group: string, value: string)
    requires key in s.configs
    ensures var t := SetConfigValue(s, s.configs[key].id, envId, group, value);
      && FindInstance(t, key, envId, group).Some?
      && FindInstance(t, key, envId, group).value.value == value
  {
  }

  /**
    Setting a value is invisible on every other (key, environment, group):
    in particular a value set under one group is not read under another.
  */
  lemma SetLeavesOtherInstances(s: Store, key: string, envId: int, group: string, value: string,
                                key': string, envId': int, group': string)
    requires s.Valid() && key in s.configs
    requires (key', envId', group') != (key, envId, group)
    ensures FindInstance(SetConfigValue(s, s.configs[key].id, envId, group, value), key', envId', group')
         == FindInstance(s, key', envId', group')
  {
    if key' in s.configs && key' != key {
      assert s.configs[key'].id != s.configs[key].id;
    }
  }
}
