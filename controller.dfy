/**
  ConfigController: the /config2 request handlers create, set, list and get,
  over ConfigService, ProjectService and the operation log.
*/
module Api {
  import opened JavaLang
  import opened Entities
  import opened ConfigService
  import KeyList
  import Folding

  /** The shortest prefix list and get accept. */
  const MinPrefixLength := 5

  /** The error results a handler returns. */
  datatype Failure =
    | PermissionDenied(reason: string)
    | ProjectNotFound(project: string)
    | ConfigExists(key: string)
    | ConfigMissing(key: string)
    | InvalidEnvironment(env: string)
    | PrefixTooShort
    | KeyIsNull
  {
    /** The message of the error result. */
    function Message(): string {
      match this
      case PermissionDenied(reason) => reason
      case ProjectNotFound(project) => "Project " + project + " does not exist"
      case ConfigExists(key) => "Config " + key + " already exists"
      case ConfigMissing(key) => "Config " + key + " does not exist"
      case InvalidEnvironment(env) => "Invalid environment " + env
      case PrefixTooShort => "Prefix is too short"
      case KeyIsNull => "Key is null"
    }
  }

  /** The Result envelope: a success with its payload, or an error. */
  datatype Result<+T> = Success(value: T) | Error(failure: Failure)

  /** What get returns on success: one value, or a key -> value map. */
  datatype Payload = Value(text: string) | Values(entries: map<string, string>)

  /** The read get performs once its guards pass. */
  datatype Read = ReadKey(key: string) | ReadKeys(keys: string) | ReadPrefix(prefix: string)

  /** The prefix guard of list and get: not null and at least five UTF-16 units long. */
  predicate PrefixAccepted(prefix: Option<string>): (b: bool)
    ensures b ==> prefix.Some? && |prefix.value| >= 3
    ensures prefix.Some? && |prefix.value| >= MinPrefixLength ==> b
  {
    prefix.Some? && Utf16Length(prefix.value) >= MinPrefixLength
  }

  function CreatedMessage(key: string, project: string): string {
    "Created config " + key + " in project " + project
  }

  function SetMessage(key: string, env: string, group: string, value: string): string {
    "Set config " + key + " in env " + env + " group [" + group + "] to " + value
  }

  /**
    The guard chain of get: identity (None when verifyIdentity passes, else
    the reason it gave), then the environment id, then the first non-blank
    of key, keys and prefix chooses the read.
  */
  function Dispatch(identity: Option<string>, envId: int, env: string,
                    key: Option<string>, keys: Option<string>, prefix: Option<string>): (r: Result<Read>)
    ensures identity.Some? ==> r == Error(PermissionDenied(identity.value))
    ensures r.Success? ==> identity.None? && envId != -1
    ensures r == Error(InvalidEnvironment(env)) <==> identity.None? && envId == -1
    ensures r.Success? && r.value.ReadKey? <==> identity.None? && envId != -1 && IsNotBlank(key)
    ensures r.Success? && r.value.ReadKeys? <==> identity.None? && envId != -1 && IsBlank(key) && IsNotBlank(keys)
    ensures r.Success? && r.value.ReadPrefix? <==>
      identity.None? && envId != -1 && IsBlank(key) && IsBlank(keys) && IsNotBlank(prefix) && PrefixAccepted(prefix)
    ensures r == Error(PrefixTooShort) <==>
      identity.None? && envId != -1 && IsBlank(key) && IsBlank(keys) && IsNotBlank(prefix) && !PrefixAccepted(prefix)
    ensures r == Error(KeyIsNull) <==>
      identity.None? && envId != -1 && IsBlank(key) && IsBlank(keys) && IsBlank(prefix)
    ensures r.Success? ==> match r.value
      case ReadKey(k) => Some(k) == key
      case ReadKeys(ks) => Some(ks) == keys
      case ReadPrefix(p) => Some(p) == prefix
  {
    if identity.Some? then Error(PermissionDenied(identity.value))
    else if envId == -1 then Error(InvalidEnvironment(env))
    else if IsNotBlank(key) then Success(ReadKey(key.value))
    else if IsNotBlank(keys) then Success(ReadKeys(keys.value))
    else if IsNotBlank(prefix) then
      if !PrefixAccepted(prefix) then Error(PrefixTooShort) else Success(ReadPrefix(prefix.value))
    else Error(KeyIsNull)
  }

  /** A non-blank key decides the read whatever keys and prefix are. */
  lemma KeyTakesPrecedence(envId: int, env: string, key: Option<string>,
                           keys: Option<string>, prefix: Option<string>,
                           keys': Option<string>, prefix': Option<string>)
    requires IsNotBlank(key)
    ensures Dispatch(None, envId, env, key, keys, prefix) == Dispatch(None, envId, env, key, keys', prefix')
  {
  }

  /** With key blank, a non-blank keys decides the read whatever prefix is. */
  lemma KeysTakePrecedence(envId: int, env: string, key: Option<string>,
                           keys: Option<string>, prefix: Option<string>, prefix': Option<string>)
    requires IsBlank(key) && IsNotBlank(keys)
    ensures Dispatch(None, envId, env, key, keys, prefix) == Dispatch(None, envId, env, key, keys, prefix')
  {
  }

  class ConfigController {
    /** ConfigService's catalog and instance table. */
    var store: Store
    /** The entries written through opLogService.createOpLog, oldest first. */
    var opLog: seq<OperationLog>
    /** ProjectService.findProject: the projects by name. */
    const projects: map<string, Project>
    /** BaseController.verifyIdentity: None when the operator id may act, else the SecurityException's message. */
    const verifyIdentity: int -> Option<string>
    /** BaseController.getEnvId: the id of the named environment, -1 when there is none. */
    const getEnvId: string -> int
    /** ConfigService.findConfigByPrefix, whose matching is not part of this model. */
    const findConfigByPrefix: (Store, string) -> seq<Config>
    /** ConfigService.findInstancesByKeys, whose matching is not part of this model. */
    const findInstancesByKeys: (Store, seq<string>, int, string) -> seq<ConfigInstance>
    /** ConfigService.findInstancesByPrefix, whose matching is not part of this model. */
    const findInstancesByPrefix: (Store, string, int, string) -> seq<ConfigInstance>

    ghost predicate Valid()
      reads this
    {
      store.Valid()
    }

    constructor (store: Store, projects: map<string, Project>,
                 verifyIdentity: int -> Option<string>, getEnvId: string -> int,
                 findConfigByPrefix: (Store, string) -> seq<Config>,
                 findInstancesByKeys: (Store, seq<string>, int, string) -> seq<ConfigInstance>,
                 findInstancesByPrefix: (Store, string, int, string) -> seq<ConfigInstance>)
      requires store.Valid()
      ensures Valid() && this.store == store && opLog == []
      ensures this.projects == projects && this.verifyIdentity == verifyIdentity && this.getEnvId == getEnvId
      ensures this.findConfigByPrefix == findConfigByPrefix
      ensures this.findInstancesByKeys == findInstancesByKeys
      ensures this.findInstancesByPrefix == findInstancesByPrefix
    {
      this.store := store;
      this.opLog := [];
      this.projects := projects;
      this.verifyIdentity := verifyIdentity;
      this.getEnvId := getEnvId;
      this.findConfigByPrefix := findConfigByPrefix;
      this.findInstancesByKeys := findInstancesByKeys;
      this.findInstancesByPrefix := findInstancesByPrefix;
    }

    /**
      create: identity, then project existence, then key absence; on success
      one String config of the project is added and one Config_Add entry
      naming the project is logged. An error changes nothing.
    */
    method Create(id: int, project: string, key: string, desc: string) returns (r: Result<string>)
      requires Valid()
      modifies this
      ensures Valid()
      ensures r.Error? ==> store == old(store) && opLog == old(opLog)
      ensures verifyIdentity(id).Some? ==> r == Error(PermissionDenied(verifyIdentity(id).value))
      ensures verifyIdentity(id).None? && project !in projects ==> r == Error(ProjectNotFound(project))
      ensures verifyIdentity(id).None? && project in projects && key in old(store).configs ==>
        r == Error(ConfigExists(key))
      ensures verifyIdentity(id).None? && project in projects && key !in old(store).configs ==>
        && r == Success(CreatedMessage(key, project))
        && store == CreateConfig(old(store), key, desc, String, projects[project].id)
        && opLog == old(opLog) + [OperationLog(ConfigAdd, Some(projects[project].id), CreatedMessage(key, project))]
    {
      var denied := verifyIdentity(id);
      if denied.Some? {
        return Error(PermissionDenied(denied.value));
      }
      if project !in projects {
        return Error(ProjectNotFound(project));
      }
      var prj := projects[project];
      var existing := FindConfigByKey(store, key);
      if existing.Some? {
        return Error(ConfigExists(key));
      }
      CreateConfigKeepsValid(store, key, desc, String, prj.id);
      store := CreateConfig(store, key, desc, String, prj.id);
      var message := CreatedMessage(key, project);
      opLog := opLog + [OperationLog(ConfigAdd, Some(prj.id), message)];
      r := Success(message);
    }

    /**
      set: identity, then environment, then config existence; on success the
      value of exactly (config id, environment id, group) is replaced or
      added and one Config_Edit entry without a project is logged. An error
      changes nothing.
    */
    method Set(id: int, env: string, key: string, group: string, value: string) returns (r: Result<string>)
      requires Valid()
      modifies this
      ensures Valid()
      ensures r.Error? ==> store == old(store) && opLog == old(opLog)
      ensures verifyIdentity(id).Some? ==> r == Error(PermissionDenied(verifyIdentity(id).value))
      ensures verifyIdentity(id).None? && getEnvId(env) == -1 ==> r == Error(InvalidEnvironment(env))
      ensures verifyIdentity(id).None? && getEnvId(env) != -1 && key !in old(store).configs ==>
        r == Error(ConfigMissing(key))
      ensures verifyIdentity(id).None? && getEnvId(env) != -1 && key in old(store).configs ==>
        && r == Success(SetMessage(key, env, group, value))
        && store == SetConfigValue(old(store), old(store).configs[key].id, getEnvId(env), group, value)
        && opLog == old(opLog) + [OperationLog(ConfigEdit, None, SetMessage(key, env, group, value))]
    {
      var denied := verifyIdentity(id);
      if denied.Some? {
        return Error(PermissionDenied(denied.value));
      }
      var envId := getEnvId(env);
      if envId == -1 {
        return Error(InvalidEnvironment(env));
      }
      var config := FindConfigByKey(store, key);
      if config.None? {
        return Error(ConfigMissing(key));
      }
      store := SetConfigValue(store, config.value.id, envId, group, value);
      var message := SetMessage(key, env, group, value);
      opLog := opLog + [OperationLog(ConfigEdit, None, message)];
      r := Success(message);
    }

    /**
      list: a null or short prefix is refused; otherwise the keys of the
      configs found for the prefix, one per config and in the same order.
    */
    method List(prefix: Option<string>) returns (r: Result<seq<string>>)
      ensures !PrefixAccepted(prefix) ==> r == Error(PrefixTooShort)
      ensures PrefixAccepted(prefix) ==>
        && r.Success?
        && |r.value| == |findConfigByPrefix(store, prefix.value)|
        && forall i | 0 <= i < |r.value| :: r.value[i] == findConfigByPrefix(store, prefix.value)[i].key
    {
      if !PrefixAccepted(prefix) {
        return Error(PrefixTooShort);
      }
      var configList := findConfigByPrefix(store, prefix.value);
      var keyList := [];
      for i := 0 to |configList|
        invariant |keyList| == i
        invariant forall j | 0 <= j < i :: keyList[j] == configList[j].key
      {
        keyList := keyList + [configList[i].key];
      }
      r := Success(keyList);
    }

    /**
      get: Dispatch decides between an error and one of the three reads; the
      read by key needs the instance to exist (the code dereferences it).
    */
    method Get(id: int, env: string, key: Option<string>, keys: Option<string>,
               prefix: Option<string>, group: string) returns (r: Result<Payload>)
      requires verifyIdentity(id).None? && getEnvId(env) != -1 && IsNotBlank(key) ==>
        FindInstance(store, key.value, getEnvId(env), group).Some?
      ensures match Dispatch(verifyIdentity(id), getEnvId(env), env, key, keys, prefix)
        case Error(f) => r == Error(f)
        case Success(ReadKey(k)) =>
          r == Success(Value(FindInstance(store, k, getEnvId(env), group).value.value))
        case Success(ReadKeys(ks)) =>
          r == Success(Values(Folding.LastWins(findInstancesByKeys(store, KeyList.KeyListOf(Some(ks)), getEnvId(env), group))))
        case Success(ReadPrefix(p)) =>
          r == Success(Values(Folding.LastWins(findInstancesByPrefix(store, p, getEnvId(env), group))))
    {
      var envId := getEnvId(env);
      match Dispatch(verifyIdentity(id), envId, env, key, keys, prefix)
      case Error(f) =>
        r := Error(f);
      case Success(ReadKey(k)) =>
        var v := GetConfig(envId, k, group);
        r := Success(Value(v));
      case Success(ReadKeys(ks)) =>
        var m := GetConfigs(envId, ks, group);
        r := Success(Values(m));
      case Success(ReadPrefix(p)) =>
        var m := GetConfigsByPrefix(envId, p, group);
        r := Success(Values(m));
    }

    /** getConfig: the value of the instance for exactly (key, envId, group). */
    method GetConfig(envId: int, key: string, group: string) returns (v: string)
      requires FindInstance(store, key, envId, group).Some?
      ensures key in store.configs && v == store.values[Slot(store.configs[key].id, envId, group)]
    {
      var ci := FindInstance(store, key, envId, group);
      v := ci.value.value;
    }

    /** getConfigs: the instances found for the parsed key list, folded last-wins. */
    method GetConfigs(envId: int, keys: string, group: string) returns (keyValue: map<string, string>)
      ensures keyValue == Folding.LastWins(findInstancesByKeys(store, KeyList.KeyListOf(Some(keys)), envId, group))
    {
      var keyList := KeyList.ConvertToList(Some(keys));
      var ciList := findInstancesByKeys(store, keyList, envId, group);
      keyValue := Folding.FoldInstances(ciList);
    }

    /** getConfigsByPrefix: the instances found for the prefix, folded last-wins. */
    method GetConfigsByPrefix(envId: int, prefix: string, group: string) returns (keyValue: map<string, string>)
      ensures keyValue == Folding.LastWins(findInstancesByPrefix(store, prefix, envId, group))
    {
      var ciList := findInstancesByPrefix(store, prefix, envId, group);
      keyValue := Folding.FoldInstances(ciList);
    }
  }

  /**
    Creating the same key twice: the first call adds exactly one config, the
    second is refused as already existing and changes nothing.
  */
  method CreateTwice(c: ConfigController, id: int, project: string, key: string, desc: string)
      returns (first: Result<string>, second: Result<string>)
    requires c.Valid() && c.verifyIdentity(id).None? && project in c.projects && key !in c.store.configs
    modifies c
    ensures first.Success? && |c.store.configs| == |old(c.store.configs)| + 1
    ensures |c.opLog| == |old(c.opLog)| + 1
    ensures second == Error(ConfigExists(key))
  {
    first := c.Create(id, project, key, desc);
    second := c.Create(id, project, key, desc);
  }

  /** A value set for (key, env, group) is what get by key returns for the same triple. */
  method SetThenGet(c: ConfigController, id: int, env: string, key: string, group: string, value: string)
      returns (r: Result<Payload>)
    requires c.Valid() && c.verifyIdentity(id).None? && c.getEnvId(env) != -1
    requires key in c.store.configs && IsNotBlank(Some(key))
    modifies c
    ensures r == Success(Value(value))
  {
    SetThenFind(c.store, key, c.getEnvId(env), group, value);
    var _ := c.Set(id, env, key, group, value);
    r := c.Get(id, env, Some(key), None, None, group);
  }
}
