# Kloud core in Dafny

Kloud runs Minecraft servers in Docker containers, one container per server,
each made from a *template*. The *master* keeps two registries, one of images
and one of templates. It creates, stops, restarts and reaps containers, and it
keeps a minimum number of servers for every dynamic template. It records every
live server in a shared Redis hash and announces state changes (STARTING,
RUNNING, GONE) on a Redis channel. The Velocity *proxy plugin* listens on that
channel: it registers and unregisters backend servers and notifies permitted
players. It also sends a joining or kicked player to the lobby with the fewest
players.

The repository holds two generations of most of this, a newer one and an
older one. Both are modelled, side by side:

| module | file | models |
|---|---|---|
| `Model` | model.dfy | server types, templates (three copies), server records, events, channels |
| `RedisStore` | redis_store.dfy | the Redis hash and channel as the wrappers reach them; the two decoders |
| `RedisWrapper` | redis_wrapper.dfy | the newer shared registry of live servers |
| `LegacyRedisWrapper` | legacy_redis_wrapper.dfy | the older shared registry, keyed by container id |
| `ImageManager` | image_manager.dfy | the image registry and its defaults |
| `TemplateManager` | template_manager.dfy | the validated template registry, its defaults and its directories |
| `LegacyTemplateManager` | legacy_template_manager.dfy | the older, unvalidated template registry |
| `TemplatePaths` | template_paths.dfy | the template directories a new server is given |
| `Proto` | proto.dfy | the conversion of server types and templates to and from protobuf |
| `ContainerSpec` | container_spec.dfy | the container both Docker adapters build from a template |
| `Orchestrator` | orchestrator.dfy | the newer server manager: create, confirm, stop, restart, update |
| `Reconcile` | reconcile.dfy | its passes: dead-server sweep, minimum top-up, static launch, start-up cleanup |
| `LegacyOrchestrator` | legacy_orchestrator.dfy | the older server manager and the master's creation-request handler |
| `Services` | services.dfy | the two gRPC server services |
| `Proxy` | proxy.dfy | the proxy's event handler, start-up registration, lobby choice on join and on kick |
| `CustomArgument` | custom_argument.dfy | the proxy's custom command argument and its error texts |
| `Text`, `AssocList`, `Wrappers` | text.dfy, assoc.dfy, wrappers.dfy | string replacement, ignore-case comparison and decimal text; insertion-ordered maps; `Option`/`Result` |

Modelling choices:

- A Redis hash and a Kotlin `LinkedHashMap` are association lists that
  update in place. A `LinkedHashMap` keeps insertion order. `HGETALL` promises
  no order, so the model fixes one: the order in which fields were first
  added. The Redis channel is the list of messages published on it.
- The store has an `up` flag. While it is down, reads throw, and the wrappers
  turn that into an empty or absent answer. Writes and publications are lost,
  yet the wrapper still reports success, because `RedisCalls` catches the
  error itself.
- A stored JSON value is either `Encoded(record)`, which decodes back to the
  record, or `Garbled(text)`, which does not decode.
- `UUID.randomUUID()` and the free-port search are oracles in an `Env`. They
  are indexed by a counter the manager bumps on every creation.
- Docker is a map from container id to its state. The calls the managers make
  are logged as requests in issue order. The callbacks Docker would run later
  (`onCreated`, `onFinished`, the stop callbacks) are separate transitions.
- A loop whose body can throw returns the state at the throw and the error.

## Model

| member | source | states |
|---|---|---|
| RedisStore.GetHash | shared/src/main/kotlin/de/joker/kloud/shared/redis/RedisCalls.kt:64-69 | the read fails exactly when the store is unreachable; otherwise it yields every stored value, in hash order |
| RedisStore.GetFromHash | shared/src/main/kotlin/de/joker/kloud/shared/redis/RedisCalls.kt:81-86 | the read fails exactly when the store is unreachable; otherwise the answer is absent exactly when the field is not stored |
| RedisStore.AddToHash | shared/src/main/kotlin/de/joker/kloud/shared/redis/RedisCalls.kt:71-79 | a reachable store reads the value back under the field, and every other field is unchanged; an unreachable one is left exactly as it was, with no error |
| RedisStore.RemoveFromHash | shared/src/main/kotlin/de/joker/kloud/shared/redis/RedisCalls.kt:88-96 | a reachable store no longer has the field, and every other field is unchanged; keys stay unique; an unreachable store is untouched |
| RedisStore.EmitEvent | shared/src/main/kotlin/de/joker/kloud/shared/redis/RedisCalls.kt:98-107 | the message is published exactly when the store is reachable; the hash is untouched |
| RedisStore.Decoded | shared/src/main/kotlin/de/joker/kloud/shared/redis/RedisWrapper.kt:19-33 | a record is kept exactly when it is stored encoded; values that do not decode are skipped |
| RedisStore.AllDecoded | shared/src/main/kotlin/de/joker/kloud/shared/RedisWrapper.kt:14-23 | the plain decode fails exactly when some value does not decode; otherwise it yields one record per value, in order |
| RedisStore.AllDecodedAgrees | shared/src/main/kotlin/de/joker/kloud/shared/RedisWrapper.kt:14-23 | when every value decodes, the older decode and the newer skipping decode give the same list |
| RedisWrapper.GetAllServers | shared/src/main/kotlin/de/joker/kloud/shared/redis/RedisWrapper.kt:19-33 | empty when the store is unreachable; otherwise exactly the servers stored encoded, never more entries than the hash has |
| RedisWrapper.GetServersByTemplate | shared/src/main/kotlin/de/joker/kloud/shared/redis/RedisWrapper.kt:35-43 | the listed servers whose template name equals the argument ignoring case, all of them and only them, in listing order |
| RedisWrapper.GetServerByName | shared/src/main/kotlin/de/joker/kloud/shared/redis/RedisWrapper.kt:45-53 | the first listed server whose name equals the argument ignoring case, and absent exactly when there is none |
| RedisWrapper.GetServerByInternal | shared/src/main/kotlin/de/joker/kloud/shared/redis/RedisWrapper.kt:55-64 | present exactly when the store is reachable and the key holds a value that decodes, and then it is the server stored under that key |
| RedisWrapper.GetServerByContainer | shared/src/main/kotlin/de/joker/kloud/shared/redis/RedisWrapper.kt:66-74 | the first listed server running in that container, and absent exactly when there is none |
| RedisWrapper.SaveServer | shared/src/main/kotlin/de/joker/kloud/shared/redis/RedisWrapper.kt:76-86 | always answers true; on a reachable store the server reads back under its internal id, and every other id reads as before |
| RedisWrapper.RemoveServer | shared/src/main/kotlin/de/joker/kloud/shared/redis/RedisWrapper.kt:88-97 | always answers true; nothing reads back under the id afterwards, and every other id reads as before |
| RedisWrapper.GetLobbyServers | shared/src/main/kotlin/de/joker/kloud/shared/redis/RedisWrapper.kt:99-101 | the listed servers whose template is a lobby, all of them and only them, in listing order |
| RedisWrapper.GetSelfServer | shared/src/main/kotlin/de/joker/kloud/shared/redis/RedisWrapper.kt:103-112 | present exactly when KLOUD_ID is set and not blank (Kotlin's whitespace, Unicode spaces included), the store is reachable and the key KLOUD_ID holds a value that decodes; then it is the server stored under that key, and in a valid store it carries that id |
| RedisWrapper.NoBreakSpaceIdIgnored | shared/src/main/kotlin/de/joker/kloud/shared/redis/RedisWrapper.kt:103-106 | a KLOUD_ID made of a no-break space counts as blank, so no server is read |
| RedisWrapper.Emit | shared/src/main/kotlin/de/joker/kloud/shared/redis/RedisWrapper.kt:139-147 | always answers true; publishes exactly when the store is reachable |
| RedisWrapper.ChangeStateOf | shared/src/main/kotlin/de/joker/kloud/shared/redis/RedisWrapper.kt:124-137 | announces the server in its new state on the servers channel; the hash is untouched |
| RedisWrapper.ChangeServerState | shared/src/main/kotlin/de/joker/kloud/shared/redis/RedisWrapper.kt:114-122 | answers true exactly when the id reads back; then it announces the stored server, and otherwise it changes nothing |
| RedisWrapper.StoredUnderId | shared/src/main/kotlin/de/joker/kloud/shared/redis/RedisWrapper.kt:76-86 | in a store only the wrapper has written, the server read under an id carries that id |
| RedisWrapper.SaveValid | shared/src/main/kotlin/de/joker/kloud/shared/redis/RedisWrapper.kt:76-86 | saving keeps one entry per key, each stored under its server's id |
| RedisWrapper.RemoveValid | shared/src/main/kotlin/de/joker/kloud/shared/redis/RedisWrapper.kt:88-97 | removing keeps that invariant |
| RedisWrapper.ListedIffReadable | shared/src/main/kotlin/de/joker/kloud/shared/redis/RedisWrapper.kt:19-64 | in a valid reachable store, a server is listed exactly when it reads back under its own id |
| RedisWrapper.SaveThenList | shared/src/main/kotlin/de/joker/kloud/shared/redis/RedisWrapper.kt:66-86 | a saved server is listed afterwards and can be found by its container |
| RedisWrapper.RemoveThenList | shared/src/main/kotlin/de/joker/kloud/shared/redis/RedisWrapper.kt:88-97 | after a removal, no listed server carries the removed id |
| RedisWrapper.SaveLostWhenDown | shared/src/main/kotlin/de/joker/kloud/shared/redis/RedisCalls.kt:71-79 | on an unreachable store a save reports success although nothing can be read back |
| RedisWrapper.ByTemplateIgnoresCase | shared/src/main/kotlin/de/joker/kloud/shared/redis/RedisWrapper.kt:35-43 | template names equal up to case select the same servers |
| RedisWrapper.ChangeStateAnnounces | shared/src/main/kotlin/de/joker/kloud/shared/redis/RedisWrapper.kt:114-137 | changing the state of a stored server succeeds and publishes exactly that server in the new state |
| LegacyRedisWrapper.GetAllServers | shared/src/main/kotlin/de/joker/kloud/shared/RedisWrapper.kt:14-23 | empty when the store is unreachable or any value does not decode; otherwise every stored record in order |
| LegacyRedisWrapper.GetServer | shared/src/main/kotlin/de/joker/kloud/shared/RedisWrapper.kt:25-34 | present exactly when the store is reachable and the container id holds a decodable value, which it returns |
| LegacyRedisWrapper.SaveServer | shared/src/main/kotlin/de/joker/kloud/shared/RedisWrapper.kt:36-45 | always true; the record reads back under its container id, and every other id reads as before |
| LegacyRedisWrapper.RemoveServer | shared/src/main/kotlin/de/joker/kloud/shared/RedisWrapper.kt:47-55 | always true; nothing reads back under the id, and every other id reads as before |
| LegacyRedisWrapper.GetLobbyServers | shared/src/main/kotlin/de/joker/kloud/shared/RedisWrapper.kt:57-59 | the listed records whose own lobby flag is set, all of them and only them, in listing order |
| LegacyRedisWrapper.PublishEvent | shared/src/main/kotlin/de/joker/kloud/shared/RedisWrapper.kt:61-69 | always true; publishes exactly when the store is reachable |
| LegacyRedisWrapper.OneBadValueHidesAll | shared/src/main/kotlin/de/joker/kloud/shared/RedisWrapper.kt:14-23 | one undecodable value empties the older listing, while the newer decode still yields the good record |
| LegacyRedisWrapper.ListingsAgreeWhenClean | shared/src/main/kotlin/de/joker/kloud/shared/RedisWrapper.kt:14-23 | with every value decodable, the older listing equals the newer decode |
| LegacyRedisWrapper.SaveValid | shared/src/main/kotlin/de/joker/kloud/shared/RedisWrapper.kt:36-45 | saving keeps each decodable entry under its own container id, once |
| ImageManager.LoadImages | cloud/src/main/kotlin/de/joker/kloud/master/template/image/ImageManager.kt:27-68 | a file with a repeated name is refused; with no file the velocity and paper defaults are registered and written; every image loaded reads back under its name |
| ImageManager.RegisteredByName | cloud/src/main/kotlin/de/joker/kloud/master/template/image/ImageManager.kt:40-42 | registering images with distinct names makes each one read back under its own name |
| ImageManager.DefaultImages | cloud/src/main/kotlin/de/joker/kloud/master/template/image/ImageManager.kt:43-67 | with no file, exactly velocity (itzg/mc-proxy) and paper (itzg/minecraft-server) exist, in that order |
| ImageManager.ListImagesComplete | cloud/src/main/kotlin/de/joker/kloud/master/template/image/ImageManager.kt:23-25 | every registered image is listed |
| TemplateManager.AddChecked | cloud/src/main/kotlin/de/joker/kloud/master/template/TemplateManager.kt:49-61 | fails exactly when some template names an unknown image, and names the first such template; otherwise it registers all of them by name |
| TemplateManager.LoadFromFile | cloud/src/main/kotlin/de/joker/kloud/master/template/TemplateManager.kt:36-61 | refuses a lobby proxy first, then a repeated name, then the first template in file order whose image is unknown; a file with none of these is accepted and every template is registered under its name |
| TemplateManager.MissingDirectories | cloud/src/main/kotlin/de/joker/kloud/master/template/TemplateManager.kt:100-106 | a directory is created exactly when it is missing and belongs to a registered name |
| TemplateManager.LoadTemplates | cloud/src/main/kotlin/de/joker/kloud/master/template/TemplateManager.kt:33-107 | with no file the two defaults are registered and written; with a file it fails exactly when validation does; each loaded template reads back; other names keep their template; the missing directories are created |
| TemplateManager.RegistryAfterLoad | cloud/src/main/kotlin/de/joker/kloud/master/template/TemplateManager.kt:49-61 | templates with distinct names each read back under their own name, and no other name changes |
| TemplateManager.DefaultsReload | cloud/src/main/kotlin/de/joker/kloud/master/template/TemplateManager.kt:62-98 | the defaults written on first start pass validation against the default images, so the next start rebuilds the same registry |
| TemplateManager.ProxyLobbyRejected | cloud/src/main/kotlin/de/joker/kloud/master/template/TemplateManager.kt:39-42 | a file with a proxy marked as lobby is refused, whatever else it holds |
| TemplateManager.ListTemplatesComplete | cloud/src/main/kotlin/de/joker/kloud/master/template/TemplateManager.kt:29-31 | every registered template is listed |
| LegacyTemplateManager.AddTemplate | cloud/src/main/kotlin/de/joker/kloud/master/data/TemplateManager.kt:11-13 | the template reads back under its name, replacing any earlier one; other names are unchanged |
| LegacyTemplateManager.RemoveTemplate | cloud/src/main/kotlin/de/joker/kloud/master/data/TemplateManager.kt:19-21 | nothing reads back under the name afterwards; other names are unchanged |
| LegacyTemplateManager.LoadTemplates | cloud/src/main/kotlin/de/joker/kloud/master/data/TemplateManager.kt:27-57 | with no file the "default" template is registered; a directory is created exactly for each registered name that lacks one |
| LegacyTemplateManager.Directories | cloud/src/main/kotlin/de/joker/kloud/master/data/TemplateManager.kt:49-56 | the registry is unchanged, and the directories created are exactly the missing ones of registered names |
| LegacyTemplateManager.LoadLastWins | cloud/src/main/kotlin/de/joker/kloud/master/data/TemplateManager.kt:30-34 | loading a file never fails: each name gets its last occurrence in the file, and names the file lacks keep their template |
| LegacyTemplateManager.DuplicateNamesOverwrite | cloud/src/main/kotlin/de/joker/kloud/master/data/TemplateManager.kt:11-13 | two templates with one name are both accepted, and the later replaces the earlier |
| LegacyTemplateManager.ListTemplatesComplete | cloud/src/main/kotlin/de/joker/kloud/master/data/TemplateManager.kt:23-25 | every registered template is listed |
| TemplatePaths.UnderMain | cloud/src/main/kotlin/de/joker/kloud/master/template/Template.kt:19-21 | one path per extra directory, each the main path, a slash and the directory |
| TemplatePaths.FilePaths | cloud/src/main/kotlin/de/joker/kloud/master/template/Template.kt:16-22 | the main path comes first; a static template has only it, a dynamic one one more per extra directory |
| TemplatePaths.MasterFilePathsShape | cloud/src/main/kotlin/de/joker/kloud/master/template/Template.kt:16-22 | the paths start at "./templates/{name}", and extra directories add paths only for a dynamic template |
| TemplatePaths.DataFilePathsShape | cloud/src/main/kotlin/de/joker/kloud/master/data/Template.kt:14-20 | the same shape under "/templates/{name}" |
| TemplatePaths.PathsUnderMain | cloud/src/main/kotlin/de/joker/kloud/master/template/Template.kt:16-22 | every path lies inside the template's main directory |
| TemplatePaths.DefaultDynamicHasOnePath | cloud/src/main/kotlin/de/joker/kloud/master/template/Template.kt:25-30 | a dynamic block without extra directories adds no path |
| Proto.ServerTypeToProto | shared/src/main/kotlin/de/joker/kloud/shared/server/ServerType.kt:10-16 | never produces the unrecognised value |
| Proto.ServerTypeFromProto | shared/src/main/kotlin/de/joker/kloud/shared/server/ServerType.kt:19-26 | fails exactly on the unrecognised value |
| Proto.ServerTypeRoundTrip | shared/src/main/kotlin/de/joker/kloud/shared/server/ServerType.kt:10-26 | converting a server type to protobuf and back yields it again |
| Proto.ProtoServerTypeRoundTrip | shared/src/main/kotlin/de/joker/kloud/shared/server/ServerType.kt:10-26 | a recognised protobuf value converted back and forth yields it again |
| Proto.ServerTypeToProtoInjective | shared/src/main/kotlin/de/joker/kloud/shared/server/ServerType.kt:10-16 | distinct server types map to distinct protobuf values |
| Proto.DynamicToProto | shared/src/main/kotlin/de/joker/kloud/shared/templates/DynamicTemplate.kt:11-17 | the dynamic block reads back unchanged from its message |
| Proto.DynamicFromProto | shared/src/main/kotlin/de/joker/kloud/shared/templates/Template.kt:60-65 | the dynamic block read from a message writes back to that same message |
| Proto.TemplateToProto | shared/src/main/kotlin/de/joker/kloud/shared/templates/Template.kt:35-49 | always writes a recognised server type, and the message reads back as the template with priority and forced port at their defaults |
| Proto.TemplateFromProto | shared/src/main/kotlin/de/joker/kloud/shared/templates/Template.kt:52-68 | fails exactly on an unrecognised server type, naming its number; otherwise every field the message carries is copied, the dynamic block is present exactly when the message has one, and priority and forced port take their defaults |
| Proto.TemplateRoundTrip | shared/src/main/kotlin/de/joker/kloud/shared/templates/Template.kt:35-68 | a template's round trip keeps every field the message carries, and resets priority and forced port to their defaults |
| Proto.TemplateRoundTripLossless | shared/src/main/kotlin/de/joker/kloud/shared/templates/Template.kt:24-68 | the round trip is the identity exactly when priority and forced port are at their defaults |
| Proto.NewTemplateRoundTrip | shared/src/main/kotlin/de/joker/kloud/shared/templates/Template.kt:24-68 | a template built with the defaults survives the round trip |
| Proto.ProtoTemplateRoundTrip | shared/src/main/kotlin/de/joker/kloud/shared/templates/Template.kt:35-68 | a message with a recognised server type reads and converts back to itself |
| Proto.TemplateFromProtoRejectsUnknownType | shared/src/main/kotlin/de/joker/kloud/shared/templates/Template.kt:52-68 | a message with an unrecognised server type cannot be read |
| ContainerSpec.RedisHostFor | cloud/src/main/kotlin/de/joker/kloud/master/docker/DockerIntegration.kt:258-262 | "localhost" becomes host.docker.internal, and any other host is kept |
| ContainerSpec.MergeEnv | cloud/src/main/kotlin/de/joker/kloud/master/docker/DockerIntegration.kt:264-275 | keys the template sets keep its value; a missing key gets the first value the injected pairs give it, and no other key appears |
| ContainerSpec.WithOnlineMode | cloud/src/main/kotlin/de/joker/kloud/master/docker/DockerIntegration.kt:277-279 | a proxied server gets ONLINE_MODE=FALSE; every other variable is unchanged |
| ContainerSpec.DataPath | cloud/src/main/kotlin/de/joker/kloud/master/docker/DockerIntegration.kt:281-285 | the mount point is /server exactly for a proxy, and /data otherwise |
| ContainerSpec.ContainerEnv | cloud/src/main/kotlin/de/joker/kloud/master/docker/DockerIntegration.kt:264-279 | template values win, except ONLINE_MODE behind a proxy; each of the nine injected variables is present with its value when the template lacks it |
| ContainerSpec.WorkingDirectoryDeletion | cloud/src/main/kotlin/de/joker/kloud/master/docker/DockerIntegration.kt:293-316 | a dynamic server works in the directory that deleteServerDirectory removes; a static server's directory is never one of those |
| ContainerSpec.DeleteServerDirectory | cloud/src/main/kotlin/de/joker/kloud/master/docker/DockerIntegration.kt:177-183 | the server's running directory is gone, and every other directory is unchanged |
| ContainerSpec.EnsureVolumeExists | cloud/src/main/kotlin/de/joker/kloud/master/docker/DockerIntegration.kt:91-97 | the volume exists afterwards, no other volume changes, and an existing volume is left alone |
| ContainerSpec.ContainerSpecFor | cloud/src/main/kotlin/de/joker/kloud/master/docker/DockerIntegration.kt:281-378 | image, name, template label, environment, a single port binding to 25565, auto-remove, the cloud network unless standalone, the data bind first, and the forwarding-secret bind exactly for a proxy |
| ContainerSpec.CreateContainer | cloud/src/main/kotlin/de/joker/kloud/master/docker/DockerIntegration.kt:244-398 | fails exactly when no port is free, with the source's message; otherwise the command above, the template's volume ensured, then STARTING, start, RUNNING and the callback with the port |
| ContainerSpec.PortAgrees | cloud/src/main/kotlin/de/joker/kloud/master/docker/DockerIntegration.kt:249-273 | when the template does not set KLOUD_SERVER_PORT itself, the host port of the binding, that variable and the port the callback receives are the same |
| ContainerSpec.SecretOnlyForProxy | cloud/src/main/kotlin/de/joker/kloud/master/docker/DockerIntegration.kt:336-363 | only a proxy's container mounts the forwarding secret |
| ContainerSpec.ContainerEnvOld | cloud/src/main/kotlin/de/joker/kloud/master/docker/DockerManager.kt:181-192 | template values win, except ONLINE_MODE behind a proxy; any other key the template lacks appears exactly when it is one of the six injected variables, and then with the value injected for it |
| ContainerSpec.OldPortAgrees | cloud/src/main/kotlin/de/joker/kloud/master/docker/DockerManager.kt:181-188 | a template that does not set KLOUD_SERVER_PORT gets the port the server was given, written in decimal |
| ContainerSpec.CreateContainerOld | cloud/src/main/kotlin/de/joker/kloud/master/docker/DockerManager.kt:161-285 | fails exactly when no port is free; a static server binds its template directory and ensures its volume, a dynamic one has neither; the steps end with STARTING, start, RUNNING and the callback |
| ContainerSpec.Copies | cloud/src/main/kotlin/de/joker/kloud/master/docker/DockerManager.kt:257-267 | one copy request per path, issued in path order, each into the data path |
| ContainerSpec.OldCopiesFollowPaths | cloud/src/main/kotlin/de/joker/kloud/master/docker/DockerManager.kt:202-273 | a static server gets no copy requests; a dynamic one gets one per template path, the template directory first, all issued before STARTING is announced |
| Orchestrator.Decrement | cloud/src/main/kotlin/de/joker/kloud/master/server/ServerManager.kt:177 | the count drops by at most one and never goes below zero |
| Orchestrator.NameParts | cloud/src/main/kotlin/de/joker/kloud/master/server/ServerManager.kt:160-165 | a static server is named after its template; a dynamic name is the template name, a dash, and the counter in decimal, which reads back as the counter |
| Orchestrator.CreateServer | cloud/src/main/kotlin/de/joker/kloud/master/server/ServerManager.kt:147-218 | the pending count goes up whatever happens; the call returns the drawn id exactly when a port is free and, for a static template, that id is not stored yet; only then is a container requested |
| Orchestrator.OnCreated | cloud/src/main/kotlin/de/joker/kloud/master/server/ServerManager.kt:171-197 | one pending slot is released; a dynamic template's counter goes up; on a reachable store the record reads back under its id and STARTING is announced; no other id changes |
| Orchestrator.OnFinished | cloud/src/main/kotlin/de/joker/kloud/master/server/ServerManager.kt:198-214 | RUNNING is announced for the record of the container, and nothing happens when no record has it |
| Orchestrator.RequestStop | cloud/src/main/kotlin/de/joker/kloud/master/server/ServerManager.kt:127-145 | answers true exactly when the id reads back, and then requests one background stop carrying the callback |
| Orchestrator.StopServer | cloud/src/main/kotlin/de/joker/kloud/master/server/ServerManager.kt:127-145 | true exactly for a known id, which gets a stop that removes the record afterwards; nothing else changes |
| Orchestrator.RestartServer | cloud/src/main/kotlin/de/joker/kloud/master/server/ServerManager.kt:88-109 | true exactly for a known id, which gets a stop that recreates the server afterwards; nothing else changes |
| Orchestrator.StopCompleted | cloud/src/main/kotlin/de/joker/kloud/master/server/ServerManager.kt:95-105 | the record under the id is gone and others are unchanged; GONE is announced; a restart then begins one creation of the same template |
| Orchestrator.UpdateServer | cloud/src/main/kotlin/de/joker/kloud/master/server/ServerManager.kt:111-125 | true exactly for a known id, whose record afterwards carries the new data; nothing is published, and nothing changes for an unknown id |
| Orchestrator.TransitionsKeepValid | cloud/src/main/kotlin/de/joker/kloud/master/server/ServerManager.kt:88-218 | every transition of the manager keeps the store's one-entry-per-id invariant |
| Orchestrator.UpdateReplacesData | cloud/src/main/kotlin/de/joker/kloud/master/server/ServerManager.kt:111-125 | an update changes only the data of the record under the id, and no other record |
| Orchestrator.UnknownIdChangesNothing | cloud/src/main/kotlin/de/joker/kloud/master/server/ServerManager.kt:88-145 | stop, restart and update of an unknown id answer false and change nothing |
| Orchestrator.FreshIdNeverTaken | cloud/src/main/kotlin/de/joker/kloud/master/server/ServerManager.kt:154-158 | the duplicate check looks up the id just drawn, so with a fresh id and a free port creation always succeeds |
| Orchestrator.CreateThenConfirm | cloud/src/main/kotlin/de/joker/kloud/master/server/ServerManager.kt:147-197 | after creation and confirmation, the record stored under the returned id is the new server, and the pending count is back where it started |
| Orchestrator.FirstTwoNamesCollide | cloud/src/main/kotlin/de/joker/kloud/master/server/ServerManager.kt:160-176 | the counter is read with default 1 but bumped from default 0, so the first two servers of a dynamic template are both named "{name}-1" |
| Orchestrator.NameAfterBumps | cloud/src/main/kotlin/de/joker/kloud/master/server/ServerManager.kt:160-176 | after k >= 1 bumps, the next name ends in k |
| Orchestrator.RestartRecreates | cloud/src/main/kotlin/de/joker/kloud/master/server/ServerManager.kt:95-105 | a completed restart leaves no record under the old id and creates the same template with the same data under the next id the environment mints; the old internal id no longer resolves |
| Reconcile.Sweep | cloud/src/main/kotlin/de/joker/kloud/master/server/ServerManager.kt:233-243 | an unreachable store is left exactly as it was; which keys go and which messages are sent is stated by SweepRemoves and SweepPublishes |
| Reconcile.SweepOne | cloud/src/main/kotlin/de/joker/kloud/master/server/ServerManager.kt:234-242 | a live server is left alone; a dead one is removed and announced as GONE |
| Reconcile.CheckDeadServers | cloud/src/main/kotlin/de/joker/kloud/master/server/ServerManager.kt:230-244 | only the store changes |
| Reconcile.SweepPublishes | cloud/src/main/kotlin/de/joker/kloud/master/server/ServerManager.kt:233-243 | the sweep publishes one GONE per dead server, in listing order |
| Reconcile.SweepRemoves | cloud/src/main/kotlin/de/joker/kloud/master/server/ServerManager.kt:233-243 | the sweep removes the keys of the dead servers and nothing else |
| Reconcile.SweepNoDead | cloud/src/main/kotlin/de/joker/kloud/master/server/ServerManager.kt:233-243 | a sweep that finds no dead server changes nothing |
| Reconcile.CheckDeadRemovesExactlyDead | cloud/src/main/kotlin/de/joker/kloud/master/server/ServerManager.kt:230-244 | an entry survives the pass exactly when it does not hold a dead server; undecodable entries stay |
| Reconcile.CheckDeadIdempotent | cloud/src/main/kotlin/de/joker/kloud/master/server/ServerManager.kt:230-244 | a second pass with unchanged container states changes nothing |
| Reconcile.CheckDeadPublishesOnePerDead | cloud/src/main/kotlin/de/joker/kloud/master/server/ServerManager.kt:230-244 | the pass publishes at most one message per listed server |
| Reconcile.Deficit | cloud/src/main/kotlin/de/joker/kloud/master/server/ServerManager.kt:254-258 | the shortfall is positive exactly when running plus pending servers are below the minimum, and then equals the difference |
| Reconcile.Repeat | cloud/src/main/kotlin/de/joker/kloud/master/server/ServerManager.kt:258-260 | k creations of the template unless one throws; each creation raises that template's pending count by one and no other |
| Sublist.Select | cloud/src/main/kotlin/de/joker/kloud/master/server/ServerManager.kt:250 | an element is kept exactly when it is in the list and passes the test, and never more elements than given |
| Sublist.SelectSelectsAt | cloud/src/main/kotlin/de/joker/kloud/master/server/ServerManager.kt:250 | the kept elements are the list's elements at exactly the passing positions, in their original order |
| Sublist.SelectIsSelection | cloud/src/main/kotlin/de/joker/kloud/master/server/ServerManager.kt:250 | the result of filtering is a selection: the passing elements, all of them, in order |
| Sublist.SelectionUnique | cloud/src/main/kotlin/de/joker/kloud/master/server/ServerManager.kt:250 | any list of exactly the passing positions' elements, in order, is the one filtering computes |
| Sublist.SelectAgrees | cloud/src/main/kotlin/de/joker/kloud/master/server/ServerManager.kt:250 | tests that agree on every element keep the same list |
| Sublist.SelectSplit | cloud/src/main/kotlin/de/joker/kloud/master/server/ServerManager.kt:248-250 | what a test keeps and what its negation keeps make up the given list again, as a multiset |
| Reconcile.ProxiesFirst | cloud/src/main/kotlin/de/joker/kloud/master/server/ServerManager.kt:248 | the same templates with the same multiplicities, every proxy before every other template, and each group in its given order (a stable sort) |
| Reconcile.FilterDistinct | cloud/src/main/kotlin/de/joker/kloud/master/server/ServerManager.kt:250 | filtering keeps templates distinct |
| Reconcile.FilterKeepsOrder | cloud/src/main/kotlin/de/joker/kloud/master/server/ServerManager.kt:248-250 | filtering keeps proxies first |
| Reconcile.EnsureMinDynamicServers | cloud/src/main/kotlin/de/joker/kloud/master/server/ServerManager.kt:246-263 | only dynamic templates of the registry are created; the store and the name counters are untouched |
| Reconcile.EnsureEach | cloud/src/main/kotlin/de/joker/kloud/master/server/ServerManager.kt:250-262 | only the templates it is given are created, and neither the store nor the id counter changes; the exact counts are stated by EnsureEachCalls |
| Reconcile.EnsureEachCalls | cloud/src/main/kotlin/de/joker/kloud/master/server/ServerManager.kt:250-262 | a pass that runs to the end creates each visited template exactly its shortfall times, and no other template |
| Reconcile.EnsureMinCalls | cloud/src/main/kotlin/de/joker/kloud/master/server/ServerManager.kt:246-263 | over distinct templates, each dynamic template is created exactly its shortfall times, measured at the start of the pass; static and unknown templates never are |
| Reconcile.EnsureEachOrder | cloud/src/main/kotlin/de/joker/kloud/master/server/ServerManager.kt:248-262 | calls for proxies come before calls for any other template |
| Reconcile.EnsureMinOrder | cloud/src/main/kotlin/de/joker/kloud/master/server/ServerManager.kt:246-263 | the whole top-up creates proxies first |
| Reconcile.LaunchEach | cloud/src/main/kotlin/de/joker/kloud/master/server/ServerManager.kt:51-53 | one creation per template, in order, until one throws |
| Reconcile.LaunchStaticServers | cloud/src/main/kotlin/de/joker/kloud/master/server/ServerManager.kt:49-54 | only static templates are created; a launch that does not throw creates exactly the static templates, in registry order |
| Reconcile.CleanupOne | cloud/src/main/kotlin/de/joker/kloud/master/server/ServerManager.kt:59-78 | a running container gets a blocking stop; GONE is published exactly when a record names the container; the records stay |
| Reconcile.CleanupCurrent | cloud/src/main/kotlin/de/joker/kloud/master/server/ServerManager.kt:56-86 | only blocking stops of listed containers are requested, no more than there are containers; the records stay in the store |
| Reconcile.CleanupPublishes | cloud/src/main/kotlin/de/joker/kloud/master/server/ServerManager.kt:59-78 | the cleanup announces every listed container that a record names, in listing order |
| Reconcile.ClearState | cloud/src/main/kotlin/de/joker/kloud/master/server/ServerManager.kt:43-47 | both counters are emptied, and the records survive |
| Reconcile.Startup | cloud/src/main/kotlin/de/joker/kloud/master/server/ServerManager.kt:34-40 | only static templates are created, each once and in template order when nothing fails; the id counter starts empty; on a reachable store the cloud-started event is the last message published |
| LegacyOrchestrator.RemoveFromList | cloud/src/main/kotlin/de/joker/kloud/master/core/ServerManager.kt:108 | every entry equal to the value leaves the list, and nothing else does |
| LegacyOrchestrator.CreateServer | cloud/src/main/kotlin/de/joker/kloud/master/core/ServerManager.kt:39-69 | with a free port, exactly one container request is added, under the name fixed now and on that port; the list and counters wait for the callback |
| LegacyOrchestrator.PortsBeforeExhaustion | cloud/src/main/kotlin/de/joker/kloud/master/docker/DockerManager.kt:167 | how many creations in a row find a free port: every one counted does, and the next one does not |
| LegacyOrchestrator.OnContainerCreated | cloud/src/main/kotlin/de/joker/kloud/master/core/ServerManager.kt:56-68 | the entry is appended, and the counter of a dynamic template goes up |
| LegacyOrchestrator.LegacyFirstTwoNamesCollide | cloud/src/main/kotlin/de/joker/kloud/master/core/ServerManager.kt:45-60 | as in the newer manager, the first two servers of a dynamic template share the name "{name}-1" |
| LegacyOrchestrator.CleanupOne | cloud/src/main/kotlin/de/joker/kloud/master/core/ServerManager.kt:86-113 | the entry leaves the list; a static server is announced STOPPING then GONE, and a dynamic one is force-deleted silently |
| LegacyOrchestrator.CleanupEach | cloud/src/main/kotlin/de/joker/kloud/master/core/ServerManager.kt:85-114 | the pass throws exactly when some entry names an unknown template, and reports that template |
| LegacyOrchestrator.Cleanup | cloud/src/main/kotlin/de/joker/kloud/master/core/ServerManager.kt:71-118 | succeeds exactly when every listed template is known, and then clears the counters; a throw leaves them as they were |
| LegacyOrchestrator.CleanupEachEmpties | cloud/src/main/kotlin/de/joker/kloud/master/core/ServerManager.kt:85-114 | a pass that runs to the end leaves no listed server |
| LegacyOrchestrator.CleanupClears | cloud/src/main/kotlin/de/joker/kloud/master/core/ServerManager.kt:71-118 | a cleanup that does not throw leaves no server listed and the counters empty |
| LegacyOrchestrator.CleanupEachPublishes | cloud/src/main/kotlin/de/joker/kloud/master/core/ServerManager.kt:85-114 | the cleanup publishes STOPPING then GONE for each static entry, in list order, and nothing for a dynamic one |
| LegacyOrchestrator.Lobbies | cloud/src/main/kotlin/de/joker/kloud/master/core/ServerManager.kt:32-34 | the lobby templates, all of them and only them, in registry order |
| LegacyOrchestrator.CreateEach | cloud/src/main/kotlin/de/joker/kloud/master/core/ServerManager.kt:32-36 | one container request per template, in order, each on the port found for it, up to the first template without a free port; that one stops the loop with the "No free port" message naming it |
| LegacyOrchestrator.Startup | cloud/src/main/kotlin/de/joker/kloud/master/core/ServerManager.kt:24-37 | a throwing cleanup stops the start-up; otherwise one server is requested per lobby template, in registry order, until the first lobby without a free port, whose error ends the start-up |
| LegacyOrchestrator.CheckEach | cloud/src/main/kotlin/de/joker/kloud/master/core/ServerManager.kt:131-145 | the pass throws exactly when some entry names an unknown template; counters and messages are untouched |
| LegacyOrchestrator.ShutdownCheck | cloud/src/main/kotlin/de/joker/kloud/master/core/ServerManager.kt:125-148 | one pass of the checker throws exactly when some listed template is unknown |
| LegacyOrchestrator.CheckEachEffect | cloud/src/main/kotlin/de/joker/kloud/master/core/ServerManager.kt:131-145 | the entries whose container runs stay, and every dynamic container is deleted, whatever its state |
| LegacyOrchestrator.ShutdownCheckEffect | cloud/src/main/kotlin/de/joker/kloud/master/core/ServerManager.kt:125-148 | after a pass, exactly the entries whose container runs are listed, and one deletion is requested per dynamic entry |
| LegacyOrchestrator.HandleEvent | cloud/src/main/kotlin/de/joker/kloud/master/redis/ServerHandler.kt:13-28 | a creation request for a known template requests one server of it on the port found, or fails with no change when no port is free; anything else changes nothing |
| Services.RequestData | cloud/src/main/kotlin/de/joker/kloud/master/server/ServerService.kt:34-48 | the data names a private game exactly when the request carries one, and keeps the request's extra data |
| Services.Admit | cloud/src/main/kotlin/de/joker/kloud/master/server/ServerService.kt:42-52 | the answer is the manager's creation outcome, with its id or its exception |
| Services.CreateServerChecked | cloud/src/main/kotlin/de/joker/kloud/master/server/ServerService.kt:20-53 | NOT_FOUND exactly for an unknown template, and ALREADY_EXISTS exactly for a static template that already has a server; neither changes the manager; any other request gets the manager's creation outcome |
| Services.CreateServerUnchecked | cloud/src/main/kotlin/de/joker/kloud/master/backend/services/ServerService.kt:16-45 | NOT_FOUND exactly for an unknown template, and never ALREADY_EXISTS; a known template gets the manager's creation outcome |
| Services.DynamicAlwaysAdmitted | cloud/src/main/kotlin/de/joker/kloud/master/server/ServerService.kt:30-32 | a dynamic template is never refused: given a fresh id and a free port, creation returns that id |
| Services.UpdateServerCall | cloud/src/main/kotlin/de/joker/kloud/master/server/ServerService.kt:55-76 | always succeeds; a known server then carries the request's data, and for an unknown id nothing changes |
| Services.RestartServerCall | cloud/src/main/kotlin/de/joker/kloud/master/server/ServerService.kt:78-86 | NOT_FOUND exactly for an unknown id; otherwise a recreating stop is requested |
| Services.StopServerCall | cloud/src/main/kotlin/de/joker/kloud/master/server/ServerService.kt:88-96 | NOT_FOUND exactly for an unknown id; otherwise a removing stop is requested |
| Proxy.Lookup | proxy/src/main/kotlin/de/joker/kloud/proxy/redis/ServerHandler.kt:59-60 | finds a registered server of that name exactly when one exists |
| Proxy.Register | proxy/src/main/kotlin/de/joker/kloud/proxy/redis/ServerHandler.kt:48 | a new name is added with the given address; a name already registered leaves the registry as it was |
| Proxy.Unregister | proxy/src/main/kotlin/de/joker/kloud/proxy/redis/ServerHandler.kt:58-64 | every entry of that name leaves the registry, and every other entry stays |
| Proxy.RegisterThenUnregister | proxy/src/main/kotlin/de/joker/kloud/proxy/redis/ServerHandler.kt:47-64 | registering a new name and then unregistering it restores the registry |
| Proxy.ConfiguredMessage | proxy/src/main/kotlin/de/joker/kloud/proxy/redis/ServerHandler.kt:37-71 | STOPPING has no notification, and a notification chosen is never blank in Kotlin's sense, where Unicode spaces are blank too |
| Proxy.SpaceOnlyMessageSilent | proxy/src/main/kotlin/de/joker/kloud/proxy/redis/ServerHandler.kt:47-50 | an online message made only of Unicode spaces counts as blank, so nothing is sent |
| Proxy.Broadcast | proxy/src/main/kotlin/de/joker/kloud/proxy/redis/ServerHandler.kt:73-77 | every player holding kloud.notify receives the text, and nobody else does |
| Proxy.HandleEvent | proxy/src/main/kotlin/de/joker/kloud/proxy/redis/ServerHandler.kt:30-82 | only state events of proxied servers act; RUNNING registers the server and GONE unregisters it, and every other name keeps exactly its entry; each delivery carries the configured text with the server's name filled in |
| Proxy.GoneForUnknownKeepsRegistry | proxy/src/main/kotlin/de/joker/kloud/proxy/redis/ServerHandler.kt:58-64 | GONE for a server the proxy does not know leaves the registry as it is |
| Proxy.RunningThenGone | proxy/src/main/kotlin/de/joker/kloud/proxy/redis/ServerHandler.kt:47-70 | RUNNING then GONE for a new server restores the registry |
| Proxy.NotifiedExactlyPermitted | proxy/src/main/kotlin/de/joker/kloud/proxy/redis/ServerHandler.kt:73-77 | with a message configured, exactly the permitted players are notified |
| Proxy.PlainMessageUnchanged | proxy/src/main/kotlin/de/joker/kloud/proxy/redis/ServerHandler.kt:41-44 | a message without the {serverName} placeholder is sent as configured |
| Proxy.RegisterStored | proxy/src/main/kotlin/de/joker/kloud/proxy/ProxyPlugin.kt:55-64 | after start-up, a name is registered exactly when it was before or a stored record of a proxied server carries it; earlier entries are kept |
| Proxy.LobbyCandidates | proxy/src/main/kotlin/de/joker/kloud/proxy/listener/ConnectionListener.kt:23-24 | exactly the registered servers whose stored record of that name is a lobby, in registry order |
| Proxy.Track | proxy/src/main/kotlin/de/joker/kloud/proxy/redis/ServerHandler.kt:47-65 | RUNNING makes the name known, at the server's address when it was new; GONE makes it unknown; every other name keeps its entry and other states change nothing |
| Proxy.Notification | proxy/src/main/kotlin/de/joker/kloud/proxy/redis/ServerHandler.kt:41-44 | a message without the `{serverName}` placeholder is delivered as it is; otherwise every occurrence, scanning left to right, is replaced by the server name (Text.ReplaceAll) |
| Proxy.OnKickedPlugin | proxy/src/main/kotlin/de/joker/kloud/proxy/ProxyPlugin.kt:98-120 | a notice exactly when no stored lobby other than the kicked server is registered; otherwise a redirect to a registered server not named like the kicked one, with no more players than any such lobby |
| Proxy.ChooseInitialServer | proxy/src/main/kotlin/de/joker/kloud/proxy/listener/ConnectionListener.kt:16-41 | no choice exactly when no registered server is a lobby; otherwise a registered lobby with the fewest players |
| Proxy.ChosenIsFirstOfFewest | proxy/src/main/kotlin/de/joker/kloud/proxy/listener/ConnectionListener.kt:33 | among the candidates the choice is the first with the fewest players: every earlier candidate has strictly more |
| Proxy.KickCandidates | proxy/src/main/kotlin/de/joker/kloud/proxy/listener/KickListener.kt:24-25 | exactly the registered servers of lobby records not named like the server the player left |
| Proxy.Reassign | proxy/src/main/kotlin/de/joker/kloud/proxy/listener/KickListener.kt:27-36 | the fixed notice exactly when there is no candidate; otherwise a redirect to the first candidate with the fewest players: every earlier candidate has strictly more |
| Proxy.OnKicked | proxy/src/main/kotlin/de/joker/kloud/proxy/listener/KickListener.kt:17-37 | a redirect never goes back to the server the player left, goes to a registered lobby with no more players than any other registered stored lobby, and to the first such candidate in record order; the fixed notice comes exactly when no other lobby is registered |
| Proxy.KickedToFewest | proxy/src/main/kotlin/de/joker/kloud/proxy/listener/KickListener.kt:24-36 | among the stored lobbies the redirect goes to one with the fewest players, and the notice comes exactly when none but the one left is registered |
| Proxy.KickCandidatesAgree | proxy/src/main/kotlin/de/joker/kloud/proxy/ProxyPlugin.kt:107-108 | filtering the lobby flag first and the name second gives the same candidates, in the same order, as filtering both at once |
| Proxy.KickHandlersAgree | proxy/src/main/kotlin/de/joker/kloud/proxy/ProxyPlugin.kt:98-120 | given the records the wrapper lists, the listener's and the plugin's kick handlers answer alike |
| CustomArgument.ErrorMessageShape | proxy/src/main/kotlin/de/joker/kloud/proxy/command/args/CustomArgument.kt:56-65 | the error for an unexpected parser exception reads "Error in executing command {full input} - {input}<--[HERE]" |
| CustomArgument.PlainBuilderVerbatim | proxy/src/main/kotlin/de/joker/kloud/proxy/command/args/CustomArgument.kt:103-106 | a builder text without placeholders is used as it is |
| CustomArgument.ToCommandSyntax | proxy/src/main/kotlin/de/joker/kloud/proxy/command/args/CustomArgument.kt:99-111 | the component's `toString()` wins, then the filled-in builder, then the message; with none of them the call fails with "No error component or message specified" |
| CustomArgument.ParseArgument | proxy/src/main/kotlin/de/joker/kloud/proxy/command/args/CustomArgument.kt:42-67 | succeeds exactly when the source is a command source and the parser returns a value; a parser's argument exception becomes a syntax error carrying its converted text, or, when it specifies nothing, an IllegalStateException with the fixed message |
| CustomArgument.CheckBase | proxy/src/main/kotlin/de/joker/kloud/proxy/command/args/CustomArgument.kt:32-36 | literal base arguments are refused with a message naming their class, and every other base is accepted |

## Where the code and its description differ

The model follows the code in each of these cases.

- The template's `priority` is read nowhere. The top-up orders templates only
  by putting proxies first.
- A dynamic template's `maxServers` is never consulted. Nothing caps the
  number of servers.
- `createServer` raises the pending count before anything can throw. A throw
  (no free port, a taken id) does not roll it back.
- Server names of a dynamic template are not unique. The counter is read with
  default 1 but bumped from default 0, so the first two servers share a name
  (`Orchestrator.FirstTwoNamesCollide`).
- Every wrapper write and publication answers `true`, even when the store is
  unreachable. `RedisCalls` swallows the error before the wrapper's own
  `catch` could see it.
- `ServerManager.createServer` passes an id and an `onCreated` callback. The
  `DockerIntegration.createContainer` in the source takes neither. The model
  keeps the manager's protocol and the adapter's container description.
- Both `ServerService` variants use `server/ServerManager.kt`'s signatures. The
  backend variant imports `core/ServerManager.kt`, which lacks them.
- The master's `redis/ServerHandler.kt` passes a newer template to
  `core/ServerManager.createServer`, which takes the older `data.Template`. The
  model uses the older registry.
- The older manager emits STOPPING, which `shared/events/ServerState.kt` does
  not define. The model adds the state. The proxy's handler has no branch for
  it, so the model ignores it there.
- The proxy handler reads notification switches and messages that
  `PluginConfig.kt` does not define. The model takes them as a `NotifyConfig`.
- Each template path is copied in its own coroutine. The copies are issued
  in path order before STARTING is announced, but nothing waits for them.
  They may land in any order, and after the container starts
  (DockerManager.kt lines 84-96 and 259-273). The model states only the order
  in which they are issued.
- `CustomArgumentException.toCommandSyntax` turns a component into the
  message `Message { it.toString() }` (CustomArgument.kt line 101). Inside
  that lambda `it` is the component itself, so the player sees the
  component's `toString()`, Adventure's debug form (for a text component,
  `TextComponentImpl{content=…, …}`), not its plain text. The model keeps the
  component as that string.
- `KickListener` calls `getLobbyServers` on `RedisSubscriber`, which does not
  define it. The model uses the older wrapper's `getLobbyServers`, which filters
  on each record's lobby flag.
- `SerializableServer.kt` names fields differently from its callers. The
  newer `TemplateManager` reads a template field (`build.image`) that the shared
  `Template` lacks. The model uses the callers' names and the template's
  `image`.

## Left out

- Docker I/O, the file system and JSON/YAML/TOML codecs are left out. They
  become parameters: the container-state map, the set of existing
  directories, and decoded file contents given as `Option<seq<…>>`.
- The free-port search (`DockerUtils.findClosestPortTo25565`) and
  `UUID.randomUUID()` are left out. They are oracles in `Env`; the older
  manager takes the port search as a `PortSearch` parameter, indexed by the
  number of container requests issued so far.
- Coroutines and timing are left out: the monitor and shutdown-checker loops,
  `delay`, and the order in which concurrent callbacks run. One pass of each
  loop is modelled, and each callback is a separate transition.
- gRPC transport, authentication, the Koin bootstrap, the secret manager and
  the templates service's streaming are left out. These are wiring around the
  modelled operations.
- The rewriting of Paper and Velocity placeholder files is left out. It is
  file I/O on configuration formats.
- The Redis transport and the older `RedisManager` list calls are left out.
  The "servers" list is modelled as append, and as removal of every equal
  entry.
- Velocity's own registry rules are left out. Names are matched exactly, while
  Velocity ignores case. Re-registering a taken name is modelled as keeping the
  old entry, where Velocity throws.
- Proxy.ChosenIsFirstOfFewest: the order of Velocity's `allServers` is left
  out. It is a copy of a concurrent hash map's values and promises no order,
  and the model fixes one: registration order. Which of several equally
  filled lobbies wins in `Proxy.ChooseInitialServer`, `Proxy.LobbyCandidates`,
  `Proxy.Reassign` and `Proxy.OnKickedPlugin` holds for that fixed order; that
  the choice has the fewest players holds for any order.
- Proxy handlers that throw on an undecodable record are modelled on the
  decoded records. `Proxy.KickHandlersAgree` compares the handlers on the
  records the wrapper lists.
- The order of `HGETALL` is left out. Redis promises none, and the model fixes
  it as the order in which fields were first added. The first-match answers
  of `RedisWrapper.GetServerByName`, `RedisWrapper.GetServerByContainer` and
  `Proxy.FindRecord`, and the order of `Proxy.RegisterStored`, hold for
  that fixed order.
- Kotlin `Int` bounds are left out. The counters (`serverQueue`,
  `serverIds`), ports and player counts are unbounded `nat`s, so overflow of
  a 32-bit counter is not modelled.
- Ignore-case comparison folds ASCII letters only, not full Unicode case
  folding.
- UUID parsing of the private-game host is left out. The host is kept as text.
- Adventure text components are left out. The component of a
  `CustomArgumentException` is kept as the string its `toString()` returns,
  which is all `toCommandSyntax` uses of it.
- CustomArgument.ErrorMessageShape: requires an argument input without '%'.
  The source substitutes the full input after the argument input, so an input
  containing "%finput%" would be expanded too.
- Reconcile.CheckDeadServers: its own contract only says that nothing but the
  store changes. The removals and messages are stated by
  `Reconcile.CheckDeadRemovesExactlyDead`.
