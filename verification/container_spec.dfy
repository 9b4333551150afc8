/** The container description the two Docker adapters derive from a template
    before talking to Docker: master/docker/DockerIntegration.kt (newer,
    shared templates, bind-mounted working directories) and
    master/docker/DockerManager.kt (older, master templates, file copies for
    dynamic servers). Docker itself, the file system and the placeholder
    rewriting are outside the model; the host directories that exist and the
    named volumes are kept as sets. */
module ContainerSpec {
  import opened Wrappers
  import opened Model
  import opened Text
  import TemplatePaths

  /** The master's configuration values the adapters read. */
  datatype DockerConfig = DockerConfig(redisHost: string, redisPort: nat, apiToken: string, backendPort: nat)

  datatype Bind = Bind(hostPath: string, containerPath: string)

  datatype PortBinding = PortBinding(hostPort: nat, containerPort: nat)

  /** The create command: image, name, labels, environment and host config. */
  datatype Spec = Spec(
    image: string,
    name: string,
    labels: map<string, string>,
    env: map<string, string>,
    ports: seq<PortBinding>,
    autoRemove: bool,
    binds: seq<Bind>,
    volumes: seq<string>,
    network: Option<string>)

  /** What happens once the container exists, in order. */
  datatype Step =
    | CopyInto(containerId: string, hostPath: string, containerPath: string)
    | Publish(containerId: string, state: ServerState)
    | Start(containerId: string)
    | Finish(containerId: string, port: nat)

  /** The command, the named volumes afterwards, and the steps. */
  datatype Creation = Creation(spec: Spec, volumes: set<string>, steps: seq<Step>)

  /** The port every server listens on inside its container. */
  const ContainerPort: nat := 25565

  const Network := "kcloud_network"

  /** Lines 258-262 (and 175-179 of the older adapter): a Redis host of
      "localhost" is reached from a container through the Docker host. */
  function RedisHostFor(host: string): (r: string)
    ensures host == "localhost" ==> r == "host.docker.internal"
    ensures host != "localhost" ==> r == host
  {
    if host == "localhost" then "host.docker.internal" else host
  }

  /** The first value a list of pairs gives a key. */
  function FirstValue(pairs: seq<(string, string)>, k: string): Option<string>
    decreases |pairs|
  {
    if pairs == [] then None
    else if pairs[0].0 == k then Some(pairs[0].1)
    else FirstValue(pairs[1..], k)
  }

  /** `putIfAbsent` for each pair in order: a key the map already holds keeps
      its value, and a missing key gets the first value the pairs give it. */
  function MergeEnv(env: map<string, string>, pairs: seq<(string, string)>): (r: map<string, string>)
    ensures forall k :: k in env ==> k in r && r[k] == env[k]
    ensures forall k :: k !in env ==> (k in r <==> FirstValue(pairs, k).Some?)
    ensures forall k :: k !in env && FirstValue(pairs, k).Some? ==> r[k] == FirstValue(pairs, k).value
    decreases |pairs|
  {
    if pairs == [] then env
    else
      var (k, v) := pairs[0];
      MergeEnv(if k in env then env else env[k := v], pairs[1..])
  }

  /** Lines 265-273: the nine variables the newer adapter provides. */
  function InjectedEnv(t: Template, serverName: string, port: nat, config: DockerConfig): seq<(string, string)> {
    [("KLOUD_TEMPLATE", t.name),
     ("EULA", "TRUE"),
     ("ENABLE_RCON", "false"),
     ("KLOUD_SERVER_NAME", serverName),
     ("KLOUD_SERVER_PORT", NatToString(port)),
     ("KLOUD_REDIS_HOST", RedisHostFor(config.redisHost)),
     ("KLOUD_REDIS_PORT", NatToString(config.redisPort)),
     ("KLOUD_API_TOKEN", config.apiToken),
     ("KLOUD_API_PORT", NatToString(config.backendPort))]
  }

  /** Lines 182-187 of the older adapter: six of them. */
  function InjectedEnvOld(t: MasterTemplate, serverName: string, port: nat, config: DockerConfig): seq<(string, string)> {
    [("KLOUD_TEMPLATE", t.name),
     ("EULA", "TRUE"),
     ("KLOUD_SERVER_NAME", serverName),
     ("KLOUD_SERVER_PORT", NatToString(port)),
     ("KLOUD_REDIS_HOST", RedisHostFor(config.redisHost)),
     ("KLOUD_REDIS_PORT", NatToString(config.redisPort))]
  }

  /** No key occurs twice. */
  predicate DistinctKeys(pairs: seq<(string, string)>) {
    forall i, j :: 0 <= i < j < |pairs| ==> pairs[i].0 != pairs[j].0
  }

  /** With distinct keys the first value of each key is its only value. */
  lemma {:induction false} FirstValueDistinct(pairs: seq<(string, string)>, i: nat)
    requires DistinctKeys(pairs) && i < |pairs|
    ensures FirstValue(pairs, pairs[i].0) == Some(pairs[i].1)
    decreases |pairs|
  {
    if i > 0 {
      assert pairs[0].0 != pairs[i].0;
      assert DistinctKeys(pairs[1..]) by {
        forall a, b | 0 <= a < b < |pairs[1..]|
          ensures pairs[1..][a].0 != pairs[1..][b].0
        {
          assert pairs[1..][a] == pairs[a + 1] && pairs[1..][b] == pairs[b + 1];
        }
      }
      FirstValueDistinct(pairs[1..], i - 1);
    }
  }

  /** A key that no pair has gets no value. */
  lemma {:induction false} FirstValueAbsent(pairs: seq<(string, string)>, k: string)
    requires forall i :: 0 <= i < |pairs| ==> pairs[i].0 != k
    ensures FirstValue(pairs, k) == None
    decreases |pairs|
  {
    if pairs != [] {
      FirstValueAbsent(pairs[1..], k);
    }
  }

  lemma InjectedKeys(t: Template, serverName: string, port: nat, config: DockerConfig)
    ensures DistinctKeys(InjectedEnv(t, serverName, port, config))
    ensures forall i :: 0 <= i < |InjectedEnv(t, serverName, port, config)| ==> InjectedEnv(t, serverName, port, config)[i].0 != "ONLINE_MODE"
  {
  }

  lemma InjectedKeysOld(t: MasterTemplate, serverName: string, port: nat, config: DockerConfig)
    ensures DistinctKeys(InjectedEnvOld(t, serverName, port, config))
    ensures forall i :: 0 <= i < |InjectedEnvOld(t, serverName, port, config)| ==> InjectedEnvOld(t, serverName, port, config)[i].0 != "ONLINE_MODE"
  {
  }

  /** The server type checks shared by both adapters: ONLINE_MODE off behind
      a proxy (lines 277-279, 190-192), the data path by type (lines 281-285,
      194-198). */
  function WithOnlineMode(env: map<string, string>, serverType: ServerType): (r: map<string, string>)
    ensures serverType == ProxiedServer ==> "ONLINE_MODE" in r && r["ONLINE_MODE"] == "FALSE"
    ensures forall k :: k != "ONLINE_MODE" ==> (k in r <==> k in env) && (k in env ==> r[k] == env[k])
    ensures serverType != ProxiedServer ==> r == env
  {
    if serverType == ProxiedServer then env["ONLINE_MODE" := "FALSE"] else env
  }

  function DataPath(serverType: ServerType): (p: string)
    ensures serverType == Proxy <==> p == "/server"
    ensures serverType != Proxy <==> p == "/data"
  {
    if serverType == Proxy then "/server" else "/data"
  }

  /** The environment of the newer adapter: the template's values win, the
      nine variables fill the gaps, ONLINE_MODE is forced behind a proxy. */
  function ContainerEnv(t: Template, serverName: string, port: nat, config: DockerConfig): (env: map<string, string>)
    ensures forall k :: k in t.environment && !(t.serverType == ProxiedServer && k == "ONLINE_MODE") ==>
      k in env && env[k] == t.environment[k]
    ensures t.serverType == ProxiedServer ==> "ONLINE_MODE" in env && env["ONLINE_MODE"] == "FALSE"
    ensures forall i :: 0 <= i < 9 && InjectedEnv(t, serverName, port, config)[i].0 !in t.environment ==>
      InjectedEnv(t, serverName, port, config)[i].0 in env
      && env[InjectedEnv(t, serverName, port, config)[i].0] == InjectedEnv(t, serverName, port, config)[i].1
  {
    var pairs := InjectedEnv(t, serverName, port, config);
    InjectedKeys(t, serverName, port, config);
    forall i | 0 <= i < 9
      ensures FirstValue(pairs, pairs[i].0) == Some(pairs[i].1)
    {
      FirstValueDistinct(pairs, i);
    }
    WithOnlineMode(MergeEnv(t.environment, pairs), t.serverType)
  }

  /** Lines 293-316: a static server works in its template directory, a
      dynamic one in a fresh directory named after the server. */
  function WorkingDirectory(t: Template, serverName: string): string {
    if IsStatic(t) then "./templates/" + t.name else RunningDirectory(serverName)
  }

  /** `deleteServerDirectory` (lines 177-183) removes this directory. */
  function RunningDirectory(serverName: string): string {
    "./running/" + serverName
  }

  /** The directory a dynamic server works in is the one its deletion
      removes; a static server's directory is never one of those. */
  lemma WorkingDirectoryDeletion(t: Template, serverName: string, other: string)
    ensures !IsStatic(t) ==> WorkingDirectory(t, serverName) == RunningDirectory(serverName)
    ensures IsStatic(t) ==> WorkingDirectory(t, serverName) != RunningDirectory(other)
  {
    if IsStatic(t) {
      assert WorkingDirectory(t, serverName)[2] == 't';
      assert RunningDirectory(other)[2] == 'r';
    }
  }

  /** `deleteServerDirectory`: the directories that exist afterwards. */
  function DeleteServerDirectory(dirs: set<string>, serverName: string): (r: set<string>)
    ensures RunningDirectory(serverName) !in r
    ensures forall d :: d != RunningDirectory(serverName) ==> (d in r <==> d in dirs)
  {
    dirs - {RunningDirectory(serverName)}
  }

  /** `ensureVolumeExists` (lines 91-97): create the named volume if absent. */
  function EnsureVolumeExists(volumes: set<string>, name: string): (r: set<string>)
    ensures name in r
    ensures forall v :: v != name ==> (v in r <==> v in volumes)
    ensures name in volumes ==> r == volumes
  {
    if name in volumes then volumes else volumes + {name}
  }

  lemma EnsureVolumeIdempotent(volumes: set<string>, name: string)
    ensures EnsureVolumeExists(EnsureVolumeExists(volumes, name), name) == EnsureVolumeExists(volumes, name)
  {
  }

  /** The steps after the create command: STARTING, the start request, then,
      once started, RUNNING and the caller's callback with the port. */
  function Lifecycle(containerId: string, port: nat): seq<Step> {
    [Publish(containerId, Starting), Start(containerId), Publish(containerId, Running), Finish(containerId, port)]
  }

  /** Lines 281-378: the create command once a port is known. The working
      directory is bound to the data path; a proxy also gets the forwarding
      secret bound inside it; every server joins the cloud's network unless
      it is a standalone server. */
  function ContainerSpecFor(t: Template, serverName: string, port: nat, config: DockerConfig, secretPath: string): (spec: Spec)
    ensures spec.image == t.image && spec.name == serverName
    ensures spec.labels == map["kloud-template" := t.name]
    ensures spec.env == ContainerEnv(t, serverName, port, config)
    ensures spec.ports == [PortBinding(port, ContainerPort)]
    ensures spec.autoRemove
    ensures spec.network.Some? <==> t.serverType != StandaloneServer
    ensures spec.network.Some? ==> spec.network.value == Network
    ensures |spec.binds| == (if t.serverType == Proxy then 2 else 1)
    ensures spec.binds[0] == Bind(WorkingDirectory(t, serverName), DataPath(t.serverType))
    ensures t.serverType == Proxy ==> spec.binds[1] == Bind(secretPath, "/server/forwarding.secret")
  {
    var dataPath := DataPath(t.serverType);
    var main := Bind(WorkingDirectory(t, serverName), dataPath);
    var binds := if t.serverType == Proxy then [main, Bind(secretPath, "/server/forwarding.secret")] else [main];
    Spec(
      t.image, serverName, map["kloud-template" := t.name],
      ContainerEnv(t, serverName, port, config),
      [PortBinding(port, ContainerPort)], true, binds, [],
      if t.serverType == StandaloneServer then None else Some(Network))
  }

  /** The IllegalStateException both adapters throw when the port search
      finds nothing. */
  function NoFreePortMessage(templateName: string): string {
    "No free port found for container " + templateName
  }

  /** `DockerIntegration.createContainer` (lines 244-398). The free port is
      the allocator's answer; `secretPath` is where the forwarding secret
      lives on the host; `containerId` is the id Docker assigns. */
  function CreateContainer(t: Template, serverName: string, port: Option<nat>, config: DockerConfig,
                           secretPath: string, volumes: set<string>, containerId: string): (r: Result<Creation, string>)
    ensures port.None? <==> r.Failure?
    ensures r.Failure? ==> r.error == NoFreePortMessage(t.name)
    ensures r.Success? ==> r.value.spec == ContainerSpecFor(t, serverName, port.value, config, secretPath)
    ensures r.Success? ==> r.value.volumes == volumes + {t.name}
    ensures r.Success? ==> r.value.steps == Lifecycle(containerId, port.value)
  {
    match port
    case None => Failure(NoFreePortMessage(t.name))
    case Some(free) =>
      Success(Creation(ContainerSpecFor(t, serverName, free, config, secretPath),
                       EnsureVolumeExists(volumes, t.name), Lifecycle(containerId, free)))
  }

  /** The port is the same everywhere: the host side of the only binding,
      KLOUD_SERVER_PORT unless the template sets it, and the callback's. */
  lemma PortAgrees(t: Template, serverName: string, port: nat, config: DockerConfig,
                   secretPath: string, volumes: set<string>, containerId: string)
    requires "KLOUD_SERVER_PORT" !in t.environment
    ensures var r := CreateContainer(t, serverName, Some(port), config, secretPath, volumes, containerId);
      r.Success?
      && r.value.spec.ports[0].hostPort == port
      && "KLOUD_SERVER_PORT" in r.value.spec.env
      && r.value.spec.env["KLOUD_SERVER_PORT"] == NatToString(port)
      && r.value.steps[3] == Finish(containerId, port)
  {
    var pairs := InjectedEnv(t, serverName, port, config);
    assert pairs[4].0 == "KLOUD_SERVER_PORT";
    var env := ContainerEnv(t, serverName, port, config);
    assert env[pairs[4].0] == pairs[4].1;
  }

  /** Only a proxy gets the forwarding-secret bind. */
  lemma SecretOnlyForProxy(t: Template, serverName: string, port: nat, config: DockerConfig,
                           secretPath: string, volumes: set<string>, containerId: string)
    ensures var spec := CreateContainer(t, serverName, Some(port), config, secretPath, volumes, containerId).value.spec;
      (exists i :: 0 <= i < |spec.binds| && spec.binds[i].containerPath == "/server/forwarding.secret")
      <==> t.serverType == Proxy
  {
    var spec := CreateContainer(t, serverName, Some(port), config, secretPath, volumes, containerId).value.spec;
    if t.serverType != Proxy {
      assert spec.binds[0].containerPath == "/data";
      assert "/data" != "/server/forwarding.secret";
    } else {
      assert spec.binds[1].containerPath == "/server/forwarding.secret";
    }
  }

  /** The environment of the older adapter. */
  function ContainerEnvOld(t: MasterTemplate, serverName: string, port: nat, config: DockerConfig): (env: map<string, string>)
    ensures forall k :: k in t.environment && !(t.serverType == ProxiedServer && k == "ONLINE_MODE") ==>
      k in env && env[k] == t.environment[k]
    ensures t.serverType == ProxiedServer ==> "ONLINE_MODE" in env && env["ONLINE_MODE"] == "FALSE"
    ensures forall k :: k !in t.environment && k != "ONLINE_MODE" ==>
      (k in env <==> FirstValue(InjectedEnvOld(t, serverName, port, config), k).Some?)
    ensures forall k :: k !in t.environment && k != "ONLINE_MODE" && FirstValue(InjectedEnvOld(t, serverName, port, config), k).Some? ==>
      k in env && env[k] == FirstValue(InjectedEnvOld(t, serverName, port, config), k).value
    ensures forall i :: 0 <= i < 6 && InjectedEnvOld(t, serverName, port, config)[i].0 !in t.environment ==>
      InjectedEnvOld(t, serverName, port, config)[i].0 in env
      && env[InjectedEnvOld(t, serverName, port, config)[i].0] == InjectedEnvOld(t, serverName, port, config)[i].1
  {
    var pairs := InjectedEnvOld(t, serverName, port, config);
    InjectedKeysOld(t, serverName, port, config);
    forall i | 0 <= i < 6
      ensures FirstValue(pairs, pairs[i].0) == Some(pairs[i].1)
    {
      FirstValueDistinct(pairs, i);
    }
    WithOnlineMode(MergeEnv(t.environment, pairs), t.serverType)
  }

  /** In the older adapter too, KLOUD_SERVER_PORT carries the port found
      unless the template sets it. */
  lemma OldPortAgrees(t: MasterTemplate, serverName: string, port: nat, config: DockerConfig)
    requires "KLOUD_SERVER_PORT" !in t.environment
    ensures "KLOUD_SERVER_PORT" in ContainerEnvOld(t, serverName, port, config)
    ensures ContainerEnvOld(t, serverName, port, config)["KLOUD_SERVER_PORT"] == NatToString(port)
  {
    var pairs := InjectedEnvOld(t, serverName, port, config);
    assert pairs[3].0 == "KLOUD_SERVER_PORT";
    var env := ContainerEnvOld(t, serverName, port, config);
    assert env[pairs[3].0] == pairs[3].1;
  }

  /** `DockerManager.createContainer` (lines 161-285): a static server gets
      its template directory bound and its volume ensured; a dynamic one gets
      no bind, and instead one copy per template path into the data path. */
  function CreateContainerOld(t: MasterTemplate, serverName: string, port: Option<nat>, config: DockerConfig,
                              volumes: set<string>, containerId: string): (r: Result<Creation, string>)
    ensures port.None? <==> r.Failure?
    ensures r.Failure? ==> r.error == NoFreePortMessage(t.name)
    ensures r.Success? ==> (
      var spec := r.value.spec;
      spec.image == t.image && spec.name == serverName
      && spec.labels == map["kloud-template" := t.name]
      && spec.env == ContainerEnvOld(t, serverName, port.value, config)
      && spec.ports == [PortBinding(port.value, ContainerPort)]
      && spec.autoRemove
      && (spec.network.Some? <==> t.serverType != StandaloneServer)
      && (t.dynamic.None? ==> (spec.binds == [Bind("./templates/" + t.name, DataPath(t.serverType))]
                               && spec.volumes == [DataPath(t.serverType)]
                               && r.value.volumes == volumes + {t.name}))
      && (t.dynamic.Some? ==> spec.binds == [] && spec.volumes == [] && r.value.volumes == volumes))
    ensures r.Success? ==> (|r.value.steps| >= 4
      && r.value.steps[|r.value.steps| - 4..] == Lifecycle(containerId, port.value))
  {
    match port
    case None => Failure(NoFreePortMessage(t.name))
    case Some(free) =>
      var dataPath := DataPath(t.serverType);
      var persistent := t.dynamic.None?;
      var spec := Spec(
        t.image, serverName, map["kloud-template" := t.name],
        ContainerEnvOld(t, serverName, free, config),
        [PortBinding(free, ContainerPort)], true,
        if persistent then [Bind("./templates/" + t.name, dataPath)] else [],
        if persistent then [dataPath] else [],
        if t.serverType == StandaloneServer then None else Some(Network));
      var copies := if persistent then [] else Copies(containerId, TemplatePaths.MasterFilePaths(t), dataPath);
      var steps := copies + Lifecycle(containerId, free);
      assert steps[|steps| - 4..] == Lifecycle(containerId, free);
      Success(Creation(spec, if persistent then EnsureVolumeExists(volumes, t.name) else volumes, steps))
  }

  /** Lines 258-267: one copy per path, in order. */
  function Copies(containerId: string, paths: seq<string>, dataPath: string): (r: seq<Step>)
    ensures |r| == |paths|
    ensures forall i :: 0 <= i < |paths| ==> r[i] == CopyInto(containerId, paths[i], dataPath)
  {
    if paths == [] then [] else [CopyInto(containerId, paths[0], dataPath)] + Copies(containerId, paths[1..], dataPath)
  }

  /** A dynamic server's files arrive by copy: one per template path, the
      template directory first, before STARTING; a static server gets none. */
  lemma OldCopiesFollowPaths(t: MasterTemplate, serverName: string, port: nat, config: DockerConfig,
                             volumes: set<string>, containerId: string)
    ensures var steps := CreateContainerOld(t, serverName, Some(port), config, volumes, containerId).value.steps;
      var copies := if t.dynamic.None? then 0 else 1 + |t.dynamic.value.extraDirectories|;
      |steps| == copies + 4
      && (forall i :: 0 <= i < copies ==> steps[i].CopyInto? && steps[i].containerPath == DataPath(t.serverType))
      && (copies > 0 ==> steps[0].hostPath == "./templates/" + t.name)
  {
    TemplatePaths.MasterFilePathsShape(t);
  }
}
