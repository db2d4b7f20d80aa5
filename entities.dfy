/**
  The records the controller reads and writes. Only the fields the
  controller touches are kept.
*/
module Entities {
  import opened JavaLang

  /** A project, as ProjectService.findProject returns it. */
  datatype Project = Project(id: int, name: string)

  /**
    ConfigTypeEnum. The controller only ever creates String configs; the
    other values of the enum are not part of this model beyond these two.
  */
  datatype ConfigType = String | Int | Bool

  /** A configuration item; its key is unique across the whole catalog. */
  datatype Config = Config(id: int, key: string, desc: string, configType: ConfigType, projectId: int)

  /** The value of one config in one environment and one group; refkey is the config's key. */
  datatype ConfigInstance = ConfigInstance(configId: int, envId: int, group: string, refkey: string, value: string)

  /** OperationTypeEnum values the controller logs. */
  datatype OperationType = ConfigAdd | ConfigEdit

  /** An audit entry; projectId is null for the entries set writes. */
  datatype OperationLog = OperationLog(opType: OperationType, projectId: Option<int>, message: string)
}
