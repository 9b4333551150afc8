/** master/server/ServerManager.kt, the newer orchestrator: its state and the
    transitions each public call and each container callback makes. Docker is
    reduced to the requests the manager issues; the fresh UUID and the free
    port each creation draws come from an environment indexed by a counter. */
module Orchestrator {
  import opened Wrappers
  import opened Model
  import opened Text
  import opened RedisStore
  import opened RedisWrapper

  /** What `getContainerState` reports; an absent container reads as `null`. */
  datatype ContainerState = ContainerState(running: bool, restarting: bool)
  type Containers = map<string, ContainerState>

  /** Everything a creation request fixes before the container exists. */
  datatype Launch = Launch(id: string, template: Template, serverName: string, serverData: ServerData, port: int)

  /** What the stop callback does once the container has stopped. */
  datatype AfterStop = ThenRemove | ThenRecreate

  /** The container requests the manager hands to Docker, in issue order. */
  datatype DockerRequest =
    | Create(launch: Launch)
    | StopInBackground(id: string, server: Server, after: AfterStop)
    | StopBlocking(containerId: string)

  /** `serverQueue` counts creations not yet confirmed per template;
      `serverIds` is the name counter per template name; `minted` counts the
      creations begun, and indexes the environment. */
  datatype Manager = Manager(
    store: ServerStore,
    queue: map<Template, nat>,
    serverIds: map<string, nat>,
    requests: seq<DockerRequest>,
    minted: nat)

  /** `UUID.randomUUID()` and the free-port search, as the n-th values drawn. */
  datatype Env = Env(uuid: nat -> string, freePort: nat -> Option<int>)

  /** The exceptions `createServer` can throw. */
  datatype CreateError = IdTaken(id: string) | NoFreePort(template: string)

  datatype Created = Created(manager: Manager, result: Result<string, CreateError>)

  /** `map[k] ?: default`. */
  function Count<K>(m: map<K, nat>, k: K, default: nat): nat {
    if k in m then m[k] else default
  }

  /** `maxOf(0, n - 1)`. */
  function Decrement(n: nat): (r: nat)
    ensures r + 1 >= n && r <= n
  {
    if n == 0 then 0 else n - 1
  }

  /** Lines 160-165: the template name, suffixed for a dynamic template with
      the counter read with default 1. */
  function SuffixedName(name: string, dynamic: bool, serverIds: map<string, nat>): string {
    if dynamic then name + "-" + NatToString(Count(serverIds, name, 1)) else name
  }

  function ServerName(t: Template, serverIds: map<string, nat>): string {
    SuffixedName(t.name, !IsStatic(t), serverIds)
  }

  /** A dynamic name reads back as the template name and the counter. */
  lemma NameParts(name: string, dynamic: bool, serverIds: map<string, nat>)
    ensures !dynamic ==> SuffixedName(name, dynamic, serverIds) == name
    ensures dynamic ==> |SuffixedName(name, dynamic, serverIds)| > |name| + 1
    ensures dynamic ==> SuffixedName(name, dynamic, serverIds)[..|name| + 1] == name + "-"
    ensures dynamic ==> SuffixedName(name, dynamic, serverIds)[|name| + 1..] == NatToString(Count(serverIds, name, 1))
    ensures dynamic ==> DecimalValue(SuffixedName(name, dynamic, serverIds)[|name| + 1..]) == Count(serverIds, name, 1)
  {
    if dynamic {
      var suffix := NatToString(Count(serverIds, name, 1));
      assert SuffixedName(name, dynamic, serverIds) == (name + "-") + suffix;
      DecimalRoundTrip(Count(serverIds, name, 1));
    }
  }

  /** `createServer` (lines 147-218) up to the container request: the pending
      count goes up first, so it stays up when the call then throws. */
  function CreateServer(m: Manager, env: Env, t: Template, data: ServerData): (c: Created)
    ensures c.manager.queue == m.queue[t := Count(m.queue, t, 0) + 1]
    ensures c.manager.store == m.store && c.manager.serverIds == m.serverIds
    ensures c.manager.minted == m.minted + 1
    ensures c.result.Success? <==>
      env.freePort(m.minted).Some? && !(IsStatic(t) && GetServerByInternal(m.store, env.uuid(m.minted)).Some?)
    ensures c.result.Success? ==> c.result.value == env.uuid(m.minted)
    ensures c.result.Success? ==> (c.manager.requests ==
      m.requests + [Create(Launch(env.uuid(m.minted), t, ServerName(t, m.serverIds), data, env.freePort(m.minted).value))])
    ensures c.result.Failure? ==> c.manager.requests == m.requests
  {
    var pending := m.(queue := m.queue[t := Count(m.queue, t, 0) + 1], minted := m.minted + 1);
    var id := env.uuid(m.minted);
    if IsStatic(t) && GetServerByInternal(m.store, id).Some? then Created(pending, Failure(IdTaken(id)))
    else
      match env.freePort(m.minted)
      case None => Created(pending, Failure(NoFreePort(t.name)))
      case Some(port) =>
        Created(pending.(requests := m.requests + [Create(Launch(id, t, ServerName(t, m.serverIds), data, port))]), Success(id))
  }

  /** The record `onCreated` stores. */
  function StartedServer(launch: Launch, containerId: string): Server {
    Server(launch.id, containerId, launch.serverName, launch.template, launch.serverData, launch.port)
  }

  /** `onCreated` (lines 171-197): bump the name counter of a dynamic template
      (default 0), release one pending slot, store the record, announce STARTING. */
  function OnCreated(m: Manager, launch: Launch, containerId: string): (r: Manager)
    ensures r.queue == m.queue[launch.template := Decrement(Count(m.queue, launch.template, 0))]
    ensures !IsStatic(launch.template) ==>
      r.serverIds == m.serverIds[launch.template.name := Count(m.serverIds, launch.template.name, 0) + 1]
    ensures IsStatic(launch.template) ==> r.serverIds == m.serverIds
    ensures r.requests == m.requests && r.minted == m.minted && r.store.up == m.store.up
    ensures m.store.up ==> GetServerByInternal(r.store, launch.id) == Some(StartedServer(launch, containerId))
    ensures forall id :: id != launch.id ==> GetServerByInternal(r.store, id) == GetServerByInternal(m.store, id)
    ensures r.store.published == if m.store.up
      then m.store.published + [Message(ServersChannel, ServerUpdateState(StartedServer(launch, containerId), Starting))]
      else m.store.published
  {
    var t := launch.template;
    var ids := if IsStatic(t) then m.serverIds else m.serverIds[t.name := Count(m.serverIds, t.name, 0) + 1];
    var server := StartedServer(launch, containerId);
    var saved := SaveServer(m.store, server).0;
    var announced := ChangeStateOf(saved, server, Starting).0;
    m.(queue := m.queue[t := Decrement(Count(m.queue, t, 0))], serverIds := ids, store := announced)
  }

  /** `onFinished` (lines 198-214): RUNNING for the record of the container,
      or nothing when no record has it. */
  function OnFinished(m: Manager, containerId: string): (r: Manager)
    ensures r.store.servers == m.store.servers && r.store.up == m.store.up
    ensures r == m.(store := r.store)
    ensures GetServerByContainer(m.store, containerId).None? ==> r == m
    ensures GetServerByContainer(m.store, containerId).Some? ==> (r.store.published ==
      m.store.published + [Message(ServersChannel, ServerUpdateState(GetServerByContainer(m.store, containerId).value, Running))])
  {
    match GetServerByContainer(m.store, containerId)
    case None => m
    case Some(server) =>
      assert m.store.up;
      m.(store := ChangeStateOf(m.store, server, Running).0)
  }

  /** The common head of `stopServer` and `restartServer`: `false` when the
      id cannot be read, otherwise a stop request carrying the callback. */
  function RequestStop(m: Manager, id: string, after: AfterStop): (r: (Manager, bool))
    ensures r.1 <==> GetServerByInternal(m.store, id).Some?
    ensures !r.1 ==> r.0 == m
    ensures r.1 ==> r.0 == m.(requests := m.requests + [StopInBackground(id, GetServerByInternal(m.store, id).value, after)])
  {
    match GetServerByInternal(m.store, id)
    case None => (m, false)
    case Some(server) => (m.(requests := m.requests + [StopInBackground(id, server, after)]), true)
  }

  /** `stopServer` (lines 127-145). */
  function StopServer(m: Manager, id: string): (r: (Manager, bool))
    ensures r.1 <==> GetServerByInternal(m.store, id).Some?
    ensures !r.1 ==> r.0 == m
    ensures r.0.store == m.store && r.0.queue == m.queue && r.0.serverIds == m.serverIds
    ensures r.1 ==> r.0.requests == m.requests + [StopInBackground(id, GetServerByInternal(m.store, id).value, ThenRemove)]
  {
    RequestStop(m, id, ThenRemove)
  }

  /** `restartServer` (lines 88-109). */
  function RestartServer(m: Manager, id: string): (r: (Manager, bool))
    ensures r.1 <==> GetServerByInternal(m.store, id).Some?
    ensures !r.1 ==> r.0 == m
    ensures r.0.store == m.store && r.0.queue == m.queue && r.0.serverIds == m.serverIds
    ensures r.1 ==> r.0.requests == m.requests + [StopInBackground(id, GetServerByInternal(m.store, id).value, ThenRecreate)]
  {
    RequestStop(m, id, ThenRecreate)
  }

  /** The stop callbacks (lines 95-105 and 134-141): remove the record under
      the requested id and announce GONE; a restart then creates a server of
      the same template with the same data, whose failure is lost with its
      coroutine. */
  function StopCompleted(m: Manager, env: Env, id: string, server: Server, after: AfterStop): (r: Manager)
    ensures GetServerByInternal(r.store, id) == None
    ensures forall other :: other != id ==> GetServerByInternal(r.store, other) == GetServerByInternal(m.store, other)
    ensures r.store.published == if m.store.up
      then m.store.published + [Message(ServersChannel, ServerUpdateState(server, Gone))]
      else m.store.published
    ensures after == ThenRemove ==> r == m.(store := r.store)
    ensures after == ThenRecreate ==> r.queue == m.queue[server.template := Count(m.queue, server.template, 0) + 1]
    ensures after == ThenRecreate ==> r.serverIds == m.serverIds && r.minted == m.minted + 1
  {
    var removed := RemoveServer(m.store, id).0;
    var stopped := m.(store := ChangeStateOf(removed, server, Gone).0);
    match after
    case ThenRemove => stopped
    case ThenRecreate => CreateServer(stopped, env, server.template, server.serverData).manager
  }

  /** `updateServer` (lines 111-125): the record read under `id` is saved
      again, under its own internal id, with the new data; no container is
      touched. */
  function UpdateServer(m: Manager, id: string, data: ServerData): (r: (Manager, bool))
    ensures r.1 <==> GetServerByInternal(m.store, id).Some?
    ensures !r.1 ==> r.0 == m
    ensures r.0 == m.(store := r.0.store)
    ensures r.0.store.published == m.store.published
    ensures r.1 ==> (GetServerByInternal(r.0.store, GetServerByInternal(m.store, id).value.internalId)
                 == Some(GetServerByInternal(m.store, id).value.(serverData := data)))
  {
    match GetServerByInternal(m.store, id)
    case None => (m, false)
    case Some(server) => (m.(store := SaveServer(m.store, server.(serverData := data)).0), true)
  }

  /** The invariant the transitions keep. */
  predicate ValidManager(m: Manager) {
    Valid(m.store)
  }

  /** Every transition keeps the store valid. */
  lemma TransitionsKeepValid(m: Manager, env: Env, t: Template, data: ServerData, launch: Launch,
                             containerId: string, id: string, server: Server, after: AfterStop)
    requires ValidManager(m)
    ensures ValidManager(CreateServer(m, env, t, data).manager)
    ensures ValidManager(OnCreated(m, launch, containerId))
    ensures ValidManager(OnFinished(m, containerId))
    ensures ValidManager(StopServer(m, id).0) && ValidManager(RestartServer(m, id).0)
    ensures ValidManager(StopCompleted(m, env, id, server, after))
    ensures ValidManager(UpdateServer(m, id, data).0)
  {
    SaveValid(m.store, StartedServer(launch, containerId));
    RemoveValid(m.store, id);
    if GetServerByInternal(m.store, id).Some? {
      SaveValid(m.store, GetServerByInternal(m.store, id).value.(serverData := data));
    }
  }

  /** With a valid store, an update changes only the data of the record under
      `id` and nothing else. */
  lemma UpdateReplacesData(m: Manager, id: string, data: ServerData)
    requires ValidManager(m)
    requires GetServerByInternal(m.store, id).Some?
    ensures GetServerByInternal(UpdateServer(m, id, data).0.store, id) == Some(GetServerByInternal(m.store, id).value.(serverData := data))
    ensures forall other :: other != id ==> GetServerByInternal(UpdateServer(m, id, data).0.store, other) == GetServerByInternal(m.store, other)
  {
    StoredUnderId(m.store, id);
  }

  /** Stop, restart and update of an unknown id answer `false` and change nothing. */
  lemma UnknownIdChangesNothing(m: Manager, id: string, data: ServerData)
    requires GetServerByInternal(m.store, id).None?
    ensures StopServer(m, id) == (m, false)
    ensures RestartServer(m, id) == (m, false)
    ensures UpdateServer(m, id, data) == (m, false)
  {
  }

  /** The static-duplicate check of `createServer` looks up the id it has
      just drawn, so with a fresh id it never rejects. */
  lemma FreshIdNeverTaken(m: Manager, env: Env, t: Template, data: ServerData)
    requires ValidManager(m)
    requires forall s :: s in GetAllServers(m.store) ==> s.internalId != env.uuid(m.minted)
    requires env.freePort(m.minted).Some?
    ensures CreateServer(m, env, t, data).result == Success(env.uuid(m.minted))
  {
    var id := env.uuid(m.minted);
    if GetServerByInternal(m.store, id).Some? {
      StoredUnderId(m.store, id);
      ListedIffReadable(m.store, GetServerByInternal(m.store, id).value);
    }
  }

  /** Creation then confirmation: the record stored under the returned id
      carries the template, the data and the port, and STARTING is announced
      for it; the pending count is back where it started. */
  lemma CreateThenConfirm(m: Manager, env: Env, t: Template, data: ServerData, containerId: string)
    requires m.store.up
    requires CreateServer(m, env, t, data).result.Success?
    ensures var c := CreateServer(m, env, t, data);
      var launch := c.manager.requests[|c.manager.requests| - 1].launch;
      var r := OnCreated(c.manager, launch, containerId);
      GetServerByInternal(r.store, c.result.value).Some?
      && GetServerByInternal(r.store, c.result.value).value.template == t
      && GetServerByInternal(r.store, c.result.value).value.serverData == data
      && GetServerByInternal(r.store, c.result.value).value.containerId == containerId
      && GetServerByInternal(r.store, c.result.value).value.connectionPort == env.freePort(m.minted).value
      && Count(r.queue, t, 0) == Count(m.queue, t, 0)
  {
  }

  /** Lines 161 and 174 read the counter with different defaults, so the
      first two servers of a dynamic template get the same name, and the
      counter only separates names from the third server on. */
  lemma FirstTwoNamesCollide(m: Manager, env: Env, t: Template, containerId: string)
    requires !IsStatic(t) && t.name !in m.serverIds
    requires CreateServer(m, env, t, EmptyServerData).result.Success?
    ensures var c := CreateServer(m, env, t, EmptyServerData);
      var launch := c.manager.requests[|c.manager.requests| - 1].launch;
      launch.serverName == t.name + "-1"
      && ServerName(t, OnCreated(c.manager, launch, containerId).serverIds) == t.name + "-1"
  {
  }

  /** After the counter has been bumped k >= 1 times the next name is
      "{name}-k": names are distinct from the second one on. */
  lemma NameAfterBumps(t: Template, serverIds: map<string, nat>, k: nat)
    requires !IsStatic(t) && k >= 1
    requires Count(serverIds, t.name, 0) == k
    ensures ServerName(t, serverIds) == t.name + "-" + NatToString(k)
  {
  }

  /** A stop that completes leaves no record under the id; a restart also
      issues a creation of the same template with the same data when a port
      and a fresh id are available. */
  lemma RestartRecreates(m: Manager, env: Env, id: string, server: Server)
    requires ValidManager(m) && m.store.up
    requires env.freePort(m.minted).Some?
    requires IsStatic(server.template) ==> GetServerByInternal(RemoveServer(m.store, id).0, env.uuid(m.minted)).None?
    ensures var r := StopCompleted(m, env, id, server, ThenRecreate);
      |r.requests| == |m.requests| + 1
      && r.requests[|m.requests|].Create?
      && r.requests[|m.requests|].launch.template == server.template
      && r.requests[|m.requests|].launch.serverData == server.serverData
      && r.requests[|m.requests|].launch.id == env.uuid(m.minted)
      && GetServerByInternal(r.store, id) == None
  {
  }
}
