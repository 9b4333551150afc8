/** The records the core passes around. Each record holds the fields the
    modelled logic reads; the repository's own classes disagree with one
    another on some fields, and the comments say which class each one follows. */
module Model {
  import opened Wrappers

  /** shared/server/ServerType.kt (the same three values appear in the
      `shared.common` copy used by the older classes). */
  datatype ServerType = Proxy | ProxiedServer | StandaloneServer

  /** shared/templates/DynamicTemplate.kt, identical in both master copies. */
  datatype DynamicTemplate = DynamicTemplate(minServers: int, maxServers: int, extraDirectories: seq<string>)

  /** A dynamic block built without `extraDirectories`: the list defaults to empty. */
  function NewDynamicTemplate(minServers: int, maxServers: int): DynamicTemplate {
    DynamicTemplate(minServers, maxServers, [])
  }

  /** shared/templates/Template.kt: the template the orchestrator, the
      registry and the container adapter use. */
  datatype Template = Template(
    name: string,
    image: string,
    environment: map<string, string>,
    lobby: bool,
    serverType: ServerType,
    requiredPermissions: seq<string>,
    priority: int,
    dynamic: Option<DynamicTemplate>,
    forcedPort: Option<int>)

  /** A template built from the three required fields, every other field at
      its declared default. */
  function NewTemplate(name: string, image: string, environment: map<string, string>): Template {
    Template(name, image, environment, false, ProxiedServer, [], 0, None, None)
  }

  /** A template without a dynamic block runs as one long-lived server. */
  predicate IsStatic(t: Template) {
    t.dynamic.None?
  }

  /** master/template/Template.kt: the older master copy, read by DockerManager. */
  datatype MasterTemplate = MasterTemplate(
    name: string,
    image: string,
    environment: map<string, string>,
    lobby: bool,
    serverType: ServerType,
    requiredPermissions: seq<string>,
    dynamic: Option<DynamicTemplate>)

  /** master/data/Template.kt: the oldest copy, without a server type, read by
      the older ServerManager and its TemplateManager. */
  datatype DataTemplate = DataTemplate(
    name: string,
    image: string,
    environment: map<string, string>,
    lobby: bool,
    requiredPermissions: seq<string>,
    dynamic: Option<DynamicTemplate>)

  /** shared/server/PrivateGame.kt; the host UUID is kept as its text. */
  datatype PrivateGame = PrivateGame(host: string)

  /** shared/server/ServerData.kt. */
  datatype ServerData = ServerData(privateGame: Option<PrivateGame>, extraData: map<string, string>)

  /** `ServerData()`: every field at its default. */
  const EmptyServerData := ServerData(None, map[])

  /** The live server record as the newer ServerManager builds and stores it. */
  datatype Server = Server(
    internalId: string,
    containerId: string,
    serverName: string,
    template: Template,
    serverData: ServerData,
    connectionPort: int)

  /** shared/events/ServerState.kt plus the STOPPING state the older
      ServerManager emits. */
  datatype ServerState = Starting | Running | Stopping | Gone

  /** The events that travel over the publish/subscribe channels. */
  datatype Event =
    | ServerUpdateState(server: Server, state: ServerState)
    | ContainerStateChanged(containerId: string, state: ServerState)
    | CreateServerRequested(templateName: string)
    | CloudStarted
    | CloudStopped

  /** shared/redis/RedisNames: the channels used here. */
  datatype Channel = ServersChannel | CloudChannel

  datatype Message = Message(channel: Channel, event: Event)
}
