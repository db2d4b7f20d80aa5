# Lion configuration API: a Dafny model of `ConfigController`

Lion is a configuration registry. Projects own configs. A config has a key
that is unique across the whole catalog. Each config holds one string value
per (environment, group), and every change is written to an operation log.
`ConfigController` serves the `/config2` requests:

- `create` adds a config to a project.
- `set` writes a value for one environment and group.
- `list` lists the keys under a prefix.
- `get` reads one key, a comma-separated list of keys, or a prefix.

The model keeps the controller's own logic and replaces its collaborators
with abstract state:

- `java_lang.dfy` (module `JavaLang`): the Java and commons-lang behaviour the
  controller relies on. It covers null (`Option`), `String.length` in UTF-16
  units, `Character.isWhitespace`, `StringUtils.isEmpty`/`isBlank`,
  `String.trim` and `String.split(",")`. Split's partner, `Segments`, is
  proved to round-trip with joining on commas.
- `entities.dfy` (module `Entities`): `Project`, `Config`, `ConfigInstance` and
  `OperationLog`, with the fields the controller touches.
- `config_store.dfy` (module `ConfigService`): ConfigService's state. It is a
  `Store` value with a catalog `key -> Config`, a value table
  `(configId, envId, group) -> value` and the next config id. Lookup by key,
  create, upsert and exact-triple instance lookup are functions on it.
- `key_list.dfy` (module `KeyList`): `convertToList`. `KeyListOf` is the
  specification; `ConvertToList` is the loop, proved equal to it.
- `folding.dfy` (module `Folding`): the `put` loop shared by `getConfigs` and
  `getConfigsByPrefix`. `LastWins` is the specification; `FoldInstances` is the
  loop.
- `controller.dfy` (module `Api`): the class `ConfigController`. Its fields
  `store` and `opLog` are the mutable service state. Its constants stand for
  the collaborators: the project directory, `verifyIdentity`, `getEnvId` and
  the three prefix/key-list queries. `Dispatch` is `get`'s pure guard chain.
  `CreateTwice` and `SetThenGet` are two client methods that compose the
  contracts.

Three behaviours of the code are easy to miss, and the model keeps them:

- A `get` by key for a missing instance returns no error result:
  `getConfig` calls `getValue` on the null that `findInstance` returns. The
  model makes the instance's existence a precondition of `Get` and
  `GetConfig`.
- The prefix length is Java's `String.length()`, which counts UTF-16 code
  units, not characters.
- In `get`, a prefix that is null, empty or whitespace only never reaches the
  length guard. It ends in "Key is null", not "Prefix is too short".

## Model

| member | source | states |
|---|---|---|
| JavaLang.Utf16Length | lion-api/src/main/java/com/dianping/lion/api/controller/ConfigController.java:102 | the length used by the prefix guards lies between the number of characters and twice it, and equals it when every character is in the Basic Multilingual Plane |
| JavaLang.IsEmpty | lion-api/src/main/java/com/dianping/lion/api/controller/ConfigController.java:184 | `StringUtils.isEmpty` holds exactly for null and for a string whose Java length is zero |
| JavaLang.IsBlank | lion-api/src/main/java/com/dianping/lion/api/controller/ConfigController.java:137-143 | `StringUtils.isBlank` holds for every null or empty string |
| JavaLang.IsNotBlank | lion-api/src/main/java/com/dianping/lion/api/controller/ConfigController.java:137-143 | `StringUtils.isNotBlank` holds only for a non-null, non-empty string |
| JavaLang.Trim | lion-api/src/main/java/com/dianping/lion/api/controller/ConfigController.java:190 | `trim` never lengthens its input, and what it returns neither starts nor ends with a character at or below U+0020 |
| JavaLang.TrimIsInfix | lion-api/src/main/java/com/dianping/lion/api/controller/ConfigController.java:190 | what `trim` returns is the infix after the leading characters at or below U+0020, and every character it cuts off from either end is such a character |
| JavaLang.TrimCommaFree | lion-api/src/main/java/com/dianping/lion/api/controller/ConfigController.java:187-190 | trimming a comma-free piece leaves it comma-free |
| JavaLang.Segments | lion-api/src/main/java/com/dianping/lion/api/controller/ConfigController.java:187 | cutting at commas yields at least one piece, even for the empty string |
| JavaLang.SegmentsCommaFree | lion-api/src/main/java/com/dianping/lion/api/controller/ConfigController.java:187 | no piece holds a comma |
| JavaLang.SegmentsNoComma | lion-api/src/main/java/com/dianping/lion/api/controller/ConfigController.java:187 | a string without a comma is a single piece |
| JavaLang.SegmentsConcat | lion-api/src/main/java/com/dianping/lion/api/controller/ConfigController.java:187 | the pieces of `a,b` are the pieces of `a` followed by those of `b` |
| JavaLang.JoinSegments | lion-api/src/main/java/com/dianping/lion/api/controller/ConfigController.java:187 | joining the pieces with commas gives back the input |
| JavaLang.SegmentsJoin | lion-api/src/main/java/com/dianping/lion/api/controller/ConfigController.java:187 | cutting comma-free pieces that were joined with commas gives back those pieces |
| JavaLang.DropTrailingEmptyPrefix | lion-api/src/main/java/com/dianping/lion/api/controller/ConfigController.java:187 | dropping the trailing empty pieces (what `split` does to a string that has a comma) keeps a prefix of the pieces, removes only empty ones and leaves no empty piece at the end |
| JavaLang.Split | lion-api/src/main/java/com/dianping/lion/api/controller/ConfigController.java:187 | `split(",")` returns a comma-free string whole (so `""` gives `[""]`); otherwise it returns comma-free pieces that do not end in an empty one. KeepKeysSplit shows it yields the same keys as cutting at every comma |
| KeyList.KeyOf | lion-api/src/main/java/com/dianping/lion/api/controller/ConfigController.java:190-192 | one loop iteration adds at most one key, and only a non-empty trimmed one |
| KeyList.KeepKeys | lion-api/src/main/java/com/dianping/lion/api/controller/ConfigController.java:189-193 | the loop over the pieces yields at most one key per piece |
| KeyList.KeepKeysTrimmed | lion-api/src/main/java/com/dianping/lion/api/controller/ConfigController.java:189-192 | every kept key is non-empty and trimmed |
| KeyList.KeepKeysCommaFree | lion-api/src/main/java/com/dianping/lion/api/controller/ConfigController.java:187-192 | keys kept from comma-free pieces are comma-free |
| KeyList.KeepKeysConcat | lion-api/src/main/java/com/dianping/lion/api/controller/ConfigController.java:189-193 | the keys of two runs of pieces are the keys of the first run followed by those of the second |
| KeyList.KeepKeysStep | lion-api/src/main/java/com/dianping/lion/api/controller/ConfigController.java:189-193 | one more loop iteration appends exactly what the next piece contributes |
| KeyList.KeyListOf | lion-api/src/main/java/com/dianping/lion/api/controller/ConfigController.java:183-195 | every key of the parsed list is non-empty, trimmed and free of commas |
| KeyList.KeepKeysDropTrailingEmpty | lion-api/src/main/java/com/dianping/lion/api/controller/ConfigController.java:187-193 | empty pieces at the end yield no key |
| KeyList.KeepKeysSplit | lion-api/src/main/java/com/dianping/lion/api/controller/ConfigController.java:187-193 | Java's `split`, with its trailing-empty removal and its no-comma case, yields the same keys as cutting at every comma |
| KeyList.KeyListOfSegments | lion-api/src/main/java/com/dianping/lion/api/controller/ConfigController.java:184-185 | the empty-input shortcut agrees with parsing the empty string: no keys |
| KeyList.KeyListConcat | lion-api/src/main/java/com/dianping/lion/api/controller/ConfigController.java:187-193 | the keys of `a,b` are the keys of `a` followed by those of `b`, so keys keep the input order |
| KeyList.KeyListSingle | lion-api/src/main/java/com/dianping/lion/api/controller/ConfigController.java:189-192 | a comma-free piece yields its trimmed self, or nothing when that is empty |
| KeyList.ConvertToList | lion-api/src/main/java/com/dianping/lion/api/controller/ConfigController.java:183-195 | the loop returns the empty list for null or empty input, and otherwise exactly `KeyListOf` |
| Folding.LastWins | lion-api/src/main/java/com/dianping/lion/api/controller/ConfigController.java:166-169 | after the `put` loop, the refkey of the last instance maps to that instance's value |
| Folding.LastWinsKeys | lion-api/src/main/java/com/dianping/lion/api/controller/ConfigController.java:166-170 | the folded map's keys are exactly the refkeys in the instance list |
| Folding.LastWinsValue | lion-api/src/main/java/com/dianping/lion/api/controller/ConfigController.java:166-170 | each key maps to the value of the last instance with that refkey |
| Folding.FoldInstances | lion-api/src/main/java/com/dianping/lion/api/controller/ConfigController.java:176-180 | the `put` loop builds exactly the last-wins map |
| ConfigService.FindConfigByKey | lion-api/src/main/java/com/dianping/lion/api/controller/ConfigController.java:54-55 | a config is found iff its key is in the catalog, and the found config carries that key |
| ConfigService.CreateConfig | lion-api/src/main/java/com/dianping/lion/api/controller/ConfigController.java:59-64 | the catalog gains exactly the new config (given key, desc, type, project, fresh id). Other keys and all values are unchanged |
| ConfigService.CreateConfigKeepsValid | lion-api/src/main/java/com/dianping/lion/api/controller/ConfigController.java:59-64 | creating a config keeps every config filed under its own key, with distinct ids below the next id |
| ConfigService.SetConfigValue | lion-api/src/main/java/com/dianping/lion/api/controller/ConfigController.java:93 | upsert of exactly one (config id, env id, group) slot; every other slot and the catalog are unchanged |
| ConfigService.FindInstance | lion-api/src/main/java/com/dianping/lion/api/controller/ConfigController.java:158 | an instance is found iff its key is in the catalog and that exact triple has a value; it carries that key and value |
| ConfigService.SetThenFind | lion-api/src/main/java/com/dianping/lion/api/controller/ConfigController.java:88-93 | after a set, the instance of the same key, environment and group holds the value just set |
| ConfigService.SetLeavesOtherInstances | lion-api/src/main/java/com/dianping/lion/api/controller/ConfigController.java:93 | a set is invisible under any other key, environment or group, so there is no cross-group fallback |
| Api.PrefixAccepted | lion-api/src/main/java/com/dianping/lion/api/controller/ConfigController.java:102 | the prefix guard of `list` (and of `get` at line 144) accepts only a non-null prefix of at least three characters, and accepts every prefix of five or more characters |
| Api.Dispatch | lion-api/src/main/java/com/dianping/lion/api/controller/ConfigController.java:123-152 | identity is checked first, then the environment, so no read happens unless both pass. Then `key` beats `keys`, which beats `prefix`. A non-blank prefix too short gives "Prefix is too short", and three blanks give "Key is null" |
| Api.KeyTakesPrecedence | lion-api/src/main/java/com/dianping/lion/api/controller/ConfigController.java:137-143 | with a non-blank key, `keys` and `prefix` do not affect the outcome |
| Api.KeysTakePrecedence | lion-api/src/main/java/com/dianping/lion/api/controller/ConfigController.java:140-143 | with key blank and keys non-blank, `prefix` does not affect the outcome |
| Api.ConfigController.constructor | lion-api/src/main/java/com/dianping/lion/api/controller/ConfigController.java:29-35 | the controller starts over a valid store with an empty log and the given collaborators |
| Api.ConfigController.Create | lion-api/src/main/java/com/dianping/lion/api/controller/ConfigController.java:39-68 | identity, then project, then key absence. Any error leaves store and log unchanged. Success adds exactly one String config of the project and appends one Config_Add entry carrying the project id |
| Api.ConfigController.Set | lion-api/src/main/java/com/dianping/lion/api/controller/ConfigController.java:72-97 | identity, then env id -1, then config existence. Any error leaves store and log unchanged. Success upserts exactly the (config id, env id, group) slot and appends one Config_Edit entry without a project id |
| Api.ConfigController.List | lion-api/src/main/java/com/dianping/lion/api/controller/ConfigController.java:101-113 | a null prefix or one under 5 units is refused. Otherwise the result lists the keys of the found configs, same length, same order |
| Api.ConfigController.Get | lion-api/src/main/java/com/dianping/lion/api/controller/ConfigController.java:117-155 | returns Dispatch's error, or the result of exactly the read Dispatch chose: the one value, or the last-wins map of the instances found for the parsed keys or for the prefix |
| Api.ConfigController.GetConfig | lion-api/src/main/java/com/dianping/lion/api/controller/ConfigController.java:157-160 | the value stored for exactly (key, env id, group) |
| Api.ConfigController.GetConfigs | lion-api/src/main/java/com/dianping/lion/api/controller/ConfigController.java:162-171 | the last-wins fold of the instances found for the parsed key list |
| Api.ConfigController.GetConfigsByPrefix | lion-api/src/main/java/com/dianping/lion/api/controller/ConfigController.java:173-181 | the last-wins fold of the instances found for the prefix |
| Api.CreateTwice | lion-api/src/main/java/com/dianping/lion/api/controller/ConfigController.java:54-57 | creating a key twice: the first call adds exactly one config and one log entry, and the second gets "already exists" |
| Api.SetThenGet | lion-api/src/main/java/com/dianping/lion/api/controller/ConfigController.java:72-97 | a value set for (key, env, group) is what `get` by that key returns for the same env and group |

## Left out

- Spring request binding, the HTTP mapping and the serialisation of `Result` are not modelled. Results are `Success`/`Error` values carrying the code's messages. A parameter with `defaultValue=""` (`group`, `desc`) is a plain non-null string, because Spring supplies the default.
- `verifyIdentity` and `getEnvId` live in `BaseController`, which is not part of this model. They are opaque functions. `getEnvId` returning -1 means an unknown environment. The message of the `SecurityException` is carried through as given.
- The implementations of `ConfigService`, `ProjectService` and `opLogService` are not part of this model. `findConfigByPrefix`, `findInstancesByKeys` and `findInstancesByPrefix` are opaque functions of the store state, so how they match keys is unspecified. `findConfigByKey`, `findInstance`, `createConfig` and `setConfigValue` are modelled concretely: exact key, exact triple, fresh id from a counter, upsert.
- ConfigService.CreateConfig: requires the key to be absent, because the controller always checks that first. What the real service does with a duplicate key is not modelled.
- "No lookup is made" on a rejected `list` or `get` is captured only as a result that does not depend on the query. The queries are pure functions of the store here, so an unmade call has no other trace.
- Api.ConfigController.Get: requires the instance to exist when the read is by key. The code dereferences `findInstance`'s result without a null check, so a missing instance is a `NullPointerException`, not an error result.
- The log entry fields that the controller does not set are left out: operator, timestamp, and anything `OperationLog`'s constructor fills in.
- `ConfigTypeEnum` is reduced to three values. Only `String` is ever used.
- Failures of the services themselves are not modelled: database errors and exceptions other than `SecurityException`.
- Concurrency is not modelled, in particular the atomicity of `create`'s check-then-insert and of the upsert. Those are storage-layer concerns.
- `Character.isWhitespace` (modelled by `IsWhitespace`) follows current Unicode. Java 8 and earlier also counted U+180E as whitespace.
