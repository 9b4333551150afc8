/** master/core/ServerManager.kt, the older orchestrator, and the master's
    master/redis/ServerHandler.kt that feeds it creation requests. Servers
    are kept as a plain list of (container, template name, server name)
    entries; templates come from the older registry of master/data. */
module LegacyOrchestrator {
  import opened Wrappers
  import opened Model
  import opened Text
  import opened LegacyTemplateManager
  import Orchestrator
  import ContainerSpec
  import opened Sublist

  /** master/core/RedisServer.kt: one entry of the "servers" list. */
  datatype ListedServer = ListedServer(containerId: string, templateName: string, serverName: string)

  /** The container requests this manager issues, in order. */
  datatype ContainerCall =
    | CreateContainer(template: DataTemplate, serverName: string, port: nat)
    | StopContainer(containerId: string)
    | DeleteContainer(containerId: string, force: bool)
    | DeleteInBackground(containerId: string, force: bool)

  /** The "servers" list, the name counter, the published messages and the
      container requests. */
  datatype LegacyManager = LegacyManager(
    servers: seq<ListedServer>,
    serverIds: map<string, nat>,
    published: seq<Message>,
    calls: seq<ContainerCall>)

  /** The state a pass leaves behind, and the template name whose lookup
      threw, if one did. */
  datatype Outcome = Outcome(manager: LegacyManager, missing: Option<string>)

  /** `DockerUtils.findClosestPortTo25565()` as this manager meets it: the
      port the search answers once `n` container requests have been issued,
      or `None` when no port is free. */
  type PortSearch = nat -> Option<nat>

  /** The state creation leaves behind, and the message of the
      IllegalStateException `createContainer` threw when no port was free. */
  datatype Created = Created(manager: LegacyManager, failure: Option<string>)

  predicate IsDynamic(t: DataTemplate) {
    t.dynamic.Some?
  }

  /** `removeFromList("servers", value)`: every entry equal to the value goes. */
  function RemoveFromList(list: seq<ListedServer>, s: ListedServer): (r: seq<ListedServer>)
    ensures forall y :: y in r <==> y in list && y != s
    ensures |r| <= |list|
  {
    if list == [] then []
    else
      assert forall y :: y in list <==> y == list[0] || y in list[1..];
      (if list[0] == s then [] else [list[0]]) + RemoveFromList(list[1..], s)
  }

  /** Lines 45-51: the same naming rule as the newer manager. */
  function LegacyName(t: DataTemplate, serverIds: map<string, nat>): string {
    Orchestrator.SuffixedName(t.name, IsDynamic(t), serverIds)
  }

  /** `createServer` (lines 39-69) up to the container request: the name is
      fixed now, the list and the counter change only in the callback. The
      port search runs first inside `DockerManager.createContainer` (line
      167 there) and throws before anything is requested. */
  function CreateServer(m: LegacyManager, t: DataTemplate, ports: PortSearch): (r: Created)
    ensures r.failure.Some? <==> ports(|m.calls|).None?
    ensures r.failure.Some? ==> r.failure.value == ContainerSpec.NoFreePortMessage(t.name) && r.manager == m
    ensures r.manager.servers == m.servers && r.manager.serverIds == m.serverIds && r.manager.published == m.published
    ensures r.failure.None? ==> (|r.manager.calls| == |m.calls| + 1 && r.manager.calls[..|m.calls|] == m.calls
      && r.manager.calls[|m.calls|] == CreateContainer(t, LegacyName(t, m.serverIds), ports(|m.calls|).value))
  {
    match ports(|m.calls|)
    case None => Created(m, Some(ContainerSpec.NoFreePortMessage(t.name)))
    case Some(port) =>
      var r := m.(calls := m.calls + [CreateContainer(t, LegacyName(t, m.serverIds), port)]);
      assert r.calls[..|m.calls|] == m.calls;
      Created(r, None)
  }

  /** The callback of lines 56-68, once Docker has created the container:
      bump the counter of a dynamic template (default 0), append the entry. */
  function OnContainerCreated(m: LegacyManager, t: DataTemplate, serverName: string, containerId: string): (r: LegacyManager)
    ensures r.servers == m.servers + [ListedServer(containerId, t.name, serverName)]
    ensures IsDynamic(t) ==> r.serverIds == m.serverIds[t.name := Orchestrator.Count(m.serverIds, t.name, 0) + 1]
    ensures !IsDynamic(t) ==> r.serverIds == m.serverIds
    ensures r.published == m.published && r.calls == m.calls
  {
    var ids := if IsDynamic(t) then m.serverIds[t.name := Orchestrator.Count(m.serverIds, t.name, 0) + 1] else m.serverIds;
    m.(serverIds := ids, servers := m.servers + [ListedServer(containerId, t.name, serverName)])
  }

  /** As in the newer manager, the counter is read with default 1 but bumped
      from default 0, so the first two servers of a dynamic template are both
      named "{name}-1". */
  lemma LegacyFirstTwoNamesCollide(m: LegacyManager, t: DataTemplate, ports: PortSearch, containerId: string)
    requires IsDynamic(t) && t.name !in m.serverIds
    requires ports(|m.calls|).Some? && ports(|m.calls| + 1).Some?
    ensures var first := CreateServer(m, t, ports).manager;
      var name := first.calls[|m.calls|].serverName;
      var created := OnContainerCreated(first, t, name, containerId);
      name == t.name + "-1" && CreateServer(created, t, ports).manager.calls[|created.calls|].serverName == t.name + "-1"
  {
    var first := CreateServer(m, t, ports).manager;
    var created := OnContainerCreated(first, t, first.calls[|m.calls|].serverName, containerId);
    assert created.serverIds[t.name] == 1;
    assert NatToString(1) == "1";
  }

  /** The announcement of a container's state on the servers channel. */
  function StateMessage(containerId: string, state: ServerState): Message {
    Message(ServersChannel, ContainerStateChanged(containerId, state))
  }

  /** Lines 86-113 for one entry whose template was found: a static server is
      announced STOPPING, stopped, deleted, announced GONE; a dynamic one is
      force-deleted silently. Either way the entry leaves the list. */
  function CleanupOne(m: LegacyManager, t: DataTemplate, s: ListedServer): (r: LegacyManager)
    ensures s !in r.servers
    ensures forall y :: y != s ==> (y in r.servers <==> y in m.servers)
    ensures r.serverIds == m.serverIds
    ensures !IsDynamic(t) ==>
      r.published == m.published + [StateMessage(s.containerId, Stopping), StateMessage(s.containerId, Gone)]
      && r.calls == m.calls + [StopContainer(s.containerId), DeleteContainer(s.containerId, false)]
    ensures IsDynamic(t) ==> r.published == m.published && r.calls == m.calls + [DeleteContainer(s.containerId, true)]
  {
    if !IsDynamic(t) then
      var stopping := m.(published := m.published + [StateMessage(s.containerId, Stopping)]);
      var stopped := stopping.(calls := stopping.calls + [StopContainer(s.containerId), DeleteContainer(s.containerId, false)]);
      stopped.(published := stopped.published + [StateMessage(s.containerId, Gone)], servers := RemoveFromList(stopped.servers, s))
    else
      m.(calls := m.calls + [DeleteContainer(s.containerId, true)], servers := RemoveFromList(m.servers, s))
  }

  /** The forEach of lines 85-114 over the list read at line 76; a missing
      template throws out of the loop. */
  function CleanupEach(m: LegacyManager, templates: DataTemplates, servers: seq<ListedServer>): (o: Outcome)
    ensures o.manager.serverIds == m.serverIds
    ensures o.missing.None? <==> forall i :: 0 <= i < |servers| ==> GetTemplate(templates, servers[i].templateName).Some?
    ensures o.missing.Some? ==> exists i :: (0 <= i < |servers| && servers[i].templateName == o.missing.value
      && GetTemplate(templates, o.missing.value).None?)
    decreases |servers|
  {
    if servers == [] then Outcome(m, None)
    else
      match GetTemplate(templates, servers[0].templateName)
      case None => Outcome(m, Some(servers[0].templateName))
      case Some(t) =>
        var o := CleanupEach(CleanupOne(m, t, servers[0]), templates, servers[1..]);
        assert forall i :: 1 <= i < |servers| ==> servers[i] == servers[1..][i - 1];
        if o.missing.Some? then
          var i :| 0 <= i < |servers[1..]| && servers[1..][i].templateName == o.missing.value
            && GetTemplate(templates, o.missing.value).None?;
          assert servers[i + 1].templateName == o.missing.value;
          o
        else o
  }

  /** `cleanup` (lines 71-118): the whole list is processed, then the name
      counters are cleared; a throw skips the clearing. */
  function Cleanup(m: LegacyManager, templates: DataTemplates): (o: Outcome)
    ensures o.missing.None? <==> forall s :: s in m.servers ==> GetTemplate(templates, s.templateName).Some?
    ensures o.missing.None? ==> o.manager.serverIds == map[]
    ensures o.missing.Some? ==> o.manager.serverIds == m.serverIds && GetTemplate(templates, o.missing.value).None?
  {
    var o := CleanupEach(m, templates, m.servers);
    if o.missing.None? then Outcome(o.manager.(serverIds := map[]), None) else o
  }

  /** A cleanup that runs to the end leaves the list empty. */
  lemma {:induction false} CleanupEachEmpties(m: LegacyManager, templates: DataTemplates, servers: seq<ListedServer>)
    requires forall y :: y in m.servers ==> y in servers
    requires CleanupEach(m, templates, servers).missing.None?
    ensures forall y :: y !in CleanupEach(m, templates, servers).manager.servers
    decreases |servers|
  {
    if servers != [] {
      var t := GetTemplate(templates, servers[0].templateName).value;
      var next := CleanupOne(m, t, servers[0]);
      forall y | y in next.servers
        ensures y in servers[1..]
      {
        assert y in servers && y != servers[0];
      }
      CleanupEachEmpties(next, templates, servers[1..]);
    }
  }

  /** After a cleanup that did not throw, no server is listed and the name
      counters start again from scratch. */
  lemma CleanupClears(m: LegacyManager, templates: DataTemplates)
    requires Cleanup(m, templates).missing.None?
    ensures forall y :: y !in Cleanup(m, templates).manager.servers
    ensures Cleanup(m, templates).manager.serverIds == map[]
  {
    CleanupEachEmpties(m, templates, m.servers);
  }

  /** The messages a cleanup that runs to the end publishes: STOPPING then GONE
      per static entry, in list order, nothing for a dynamic one. */
  function CleanupMessages(templates: DataTemplates, servers: seq<ListedServer>): seq<Message>
    decreases |servers|
  {
    if servers == [] then []
    else
      (match GetTemplate(templates, servers[0].templateName)
        case Some(t) =>
          if IsDynamic(t) then []
          else [StateMessage(servers[0].containerId, Stopping), StateMessage(servers[0].containerId, Gone)]
        case None => [])
      + CleanupMessages(templates, servers[1..])
  }

  lemma {:induction false} CleanupEachPublishes(m: LegacyManager, templates: DataTemplates, servers: seq<ListedServer>)
    requires CleanupEach(m, templates, servers).missing.None?
    ensures CleanupEach(m, templates, servers).manager.published == m.published + CleanupMessages(templates, servers)
    decreases |servers|
  {
    if servers != [] {
      var t := GetTemplate(templates, servers[0].templateName).value;
      CleanupEachPublishes(CleanupOne(m, t, servers[0]), templates, servers[1..]);
    }
  }

  predicate IsLobbyTemplate(t: DataTemplate) {
    t.lobby
  }

  /** The lobby templates, in registry order. */
  function Lobbies(ts: seq<DataTemplate>): (r: seq<DataTemplate>)
    ensures IsSelection(ts, IsLobbyTemplate, r)
    ensures forall t :: t in r <==> t in ts && t.lobby
  {
    SelectIsSelection(ts, IsLobbyTemplate);
    Select(ts, IsLobbyTemplate)
  }

  /** How many of `n` creations starting after `start` requests find a
      port before the first that does not. */
  function PortsBeforeExhaustion(ports: PortSearch, start: nat, n: nat): (k: nat)
    ensures k <= n
    ensures forall i :: start <= i < start + k ==> ports(i).Some?
    ensures k < n ==> ports(start + k).None?
    decreases n
  {
    if n == 0 || ports(start).None? then 0
    else 1 + PortsBeforeExhaustion(ports, start + 1, n - 1)
  }

  /** From position `start` on, `calls` holds one creation for each of the
      first `k` templates, in order, each on the port the search answered. */
  predicate CreatesFrom(calls: seq<ContainerCall>, start: nat, ts: seq<DataTemplate>, ids: map<string, nat>, ports: PortSearch, k: nat) {
    start + k <= |calls| && k <= |ts|
    && forall j :: start <= j < start + k ==>
         ports(j).Some? && calls[j] == CreateContainer(ts[j - start], LegacyName(ts[j - start], ids), ports(j).value)
  }

  /** The creation `CreatesFrom` promises at one position. */
  lemma CreatesAt(calls: seq<ContainerCall>, start: nat, ts: seq<DataTemplate>, ids: map<string, nat>, ports: PortSearch, k: nat, i: nat)
    requires CreatesFrom(calls, start, ts, ids, ports, k) && i < k
    ensures ports(start + i).Some? && calls[start + i] == CreateContainer(ts[i], LegacyName(ts[i], ids), ports(start + i).value)
  {
    assert start <= start + i < start + k;
  }

  /** A creation for the head followed by creations for the tail. */
  lemma CreatesCons(mc: seq<ContainerCall>, nc: seq<ContainerCall>, rc: seq<ContainerCall>,
                    ts: seq<DataTemplate>, ids: map<string, nat>, ports: PortSearch, k: nat)
    requires ts != [] && k >= 1
    requires |nc| == |mc| + 1 && ports(|mc|).Some?
    requires nc[|mc|] == CreateContainer(ts[0], LegacyName(ts[0], ids), ports(|mc|).value)
    requires |nc| <= |rc| && rc[..|nc|] == nc
    requires CreatesFrom(rc, |nc|, ts[1..], ids, ports, k - 1)
    ensures CreatesFrom(rc, |mc|, ts, ids, ports, k)
  {
    forall j | |mc| <= j < |mc| + k
      ensures ports(j).Some? && rc[j] == CreateContainer(ts[j - |mc|], LegacyName(ts[j - |mc|], ids), ports(j).value)
    {
      var i := j - |mc|;
      if i > 0 {
        CreatesAt(rc, |nc|, ts[1..], ids, ports, k - 1, i - 1);
        assert ts[i] == ts[1..][i - 1];
      } else {
        assert rc[|mc|] == rc[..|nc|][|mc|];
      }
    }
  }

  /** The forEach of lines 32-36: one `createServer` per template, in order,
      until the port search throws. */
  function CreateEach(m: LegacyManager, ts: seq<DataTemplate>, ports: PortSearch): (r: Created)
    ensures r.manager.servers == m.servers && r.manager.serverIds == m.serverIds && r.manager.published == m.published
    ensures |r.manager.calls| == |m.calls| + PortsBeforeExhaustion(ports, |m.calls|, |ts|)
    ensures r.manager.calls[..|m.calls|] == m.calls
    ensures CreatesFrom(r.manager.calls, |m.calls|, ts, m.serverIds, ports, PortsBeforeExhaustion(ports, |m.calls|, |ts|))
    ensures r.failure.Some? <==> PortsBeforeExhaustion(ports, |m.calls|, |ts|) < |ts|
    ensures r.failure.Some? ==>
      r.failure.value == ContainerSpec.NoFreePortMessage(ts[PortsBeforeExhaustion(ports, |m.calls|, |ts|)].name)
    decreases |ts|
  {
    if ts == [] then
      NoneCreated(m.calls, ts, m.serverIds, ports);
      Created(m, None)
    else
      var c := CreateServer(m, ts[0], ports);
      if c.failure.Some? then
        NoneCreated(m.calls, ts, m.serverIds, ports);
        c
      else
        var r := CreateEach(c.manager, ts[1..], ports);
        CreateEachStep(m.calls, c.manager.calls, r.manager.calls, ts, m.serverIds, ports);
        r
  }

  /** Nothing to create, or no port for the first: no creation at all. */
  lemma NoneCreated(calls: seq<ContainerCall>, ts: seq<DataTemplate>, ids: map<string, nat>, ports: PortSearch)
    requires ts == [] || ports(|calls|).None?
    ensures PortsBeforeExhaustion(ports, |calls|, |ts|) == 0
    ensures calls[..|calls|] == calls
    ensures CreatesFrom(calls, |calls|, ts, ids, ports, 0)
  {
  }

  /** One creation, then the rest: the counts and messages of the tail's
      creations, shifted by one, are those of the whole list. */
  lemma CreateEachStep(mc: seq<ContainerCall>, nc: seq<ContainerCall>, rc: seq<ContainerCall>,
                       ts: seq<DataTemplate>, ids: map<string, nat>, ports: PortSearch)
    requires ts != [] && ports(|mc|).Some?
    requires |nc| == |mc| + 1 && nc[..|mc|] == mc
    requires nc[|mc|] == CreateContainer(ts[0], LegacyName(ts[0], ids), ports(|mc|).value)
    requires |rc| == |nc| + PortsBeforeExhaustion(ports, |nc|, |ts| - 1)
    requires rc[..|nc|] == nc
    requires CreatesFrom(rc, |nc|, ts[1..], ids, ports, PortsBeforeExhaustion(ports, |nc|, |ts| - 1))
    ensures PortsBeforeExhaustion(ports, |mc|, |ts|) == 1 + PortsBeforeExhaustion(ports, |nc|, |ts| - 1)
    ensures |rc| == |mc| + PortsBeforeExhaustion(ports, |mc|, |ts|)
    ensures rc[..|mc|] == mc
    ensures CreatesFrom(rc, |mc|, ts, ids, ports, PortsBeforeExhaustion(ports, |mc|, |ts|))
    ensures PortsBeforeExhaustion(ports, |mc|, |ts|) < |ts| ==>
      ts[PortsBeforeExhaustion(ports, |mc|, |ts|)] == ts[1..][PortsBeforeExhaustion(ports, |nc|, |ts| - 1)]
  {
    var k := PortsBeforeExhaustion(ports, |mc|, |ts|);
    assert k == 1 + PortsBeforeExhaustion(ports, |nc|, |ts| - 1);
    CreatesCons(mc, nc, rc, ts, ids, ports, k);
    assert rc[..|mc|] == nc[..|mc|];
  }

  /** How start-up fails: the cleanup met an unknown template, or a lobby
      found no free port. */
  datatype StartError = MissingTemplate(name: string) | NoFreePort(message: string)

  datatype Started = Started(manager: LegacyManager, error: Option<StartError>)

  /** `startup` (lines 24-37) without the shutdown checker's loop: clean up,
      then create one server per lobby template until one finds no free
      port, whose exception leaves `startup`. A throwing cleanup creates
      nothing. */
  function Startup(m: LegacyManager, templates: DataTemplates, ports: PortSearch): (o: Started)
    ensures Cleanup(m, templates).missing.Some? ==>
      o == Started(Cleanup(m, templates).manager, Some(MissingTemplate(Cleanup(m, templates).missing.value)))
    ensures Cleanup(m, templates).missing.None? ==>
      var before := |Cleanup(m, templates).manager.calls|;
      var lobbies := Lobbies(ListTemplates(templates));
      var k := PortsBeforeExhaustion(ports, before, |lobbies|);
      |o.manager.calls| == before + k
      && CreatesFrom(o.manager.calls, before, lobbies, Cleanup(m, templates).manager.serverIds, ports, k)
      && (forall i :: before <= i < |o.manager.calls| ==>
            o.manager.calls[i].CreateContainer? && o.manager.calls[i].template.lobby)
      && (o.error.None? <==> k == |lobbies|)
      && (o.error.Some? ==> o.error.value == NoFreePort(ContainerSpec.NoFreePortMessage(lobbies[k].name)))
  {
    var cleaned := Cleanup(m, templates);
    if cleaned.missing.Some? then Started(cleaned.manager, Some(MissingTemplate(cleaned.missing.value)))
    else
      var lobbies := Lobbies(ListTemplates(templates));
      var r := CreateEach(cleaned.manager, lobbies, ports);
      var before := |cleaned.manager.calls|;
      forall i | before <= i < |r.manager.calls|
        ensures r.manager.calls[i].CreateContainer? && r.manager.calls[i].template.lobby
      {
        var j := i - before;
        assert r.manager.calls[before + j] == CreateContainer(lobbies[j], LegacyName(lobbies[j], cleaned.manager.serverIds), ports(before + j).value);
        assert lobbies[j] in lobbies;
      }
      Started(r.manager, if r.failure.Some? then Some(NoFreePort(r.failure.value)) else None)
  }

  /** Line 134: no state, or a state that is not running. */
  predicate Stopped(docker: Orchestrator.Containers, containerId: string) {
    containerId !in docker || !docker[containerId].running
  }

  /** Lines 131-145 for one entry: an entry whose container is stopped leaves
      the list; a dynamic template's container is then deleted whatever its
      state. The template lookup comes after the removal. */
  function CheckEach(m: LegacyManager, docker: Orchestrator.Containers, templates: DataTemplates, servers: seq<ListedServer>): (o: Outcome)
    ensures o.manager.serverIds == m.serverIds && o.manager.published == m.published
    ensures o.missing.None? <==> forall i :: 0 <= i < |servers| ==> GetTemplate(templates, servers[i].templateName).Some?
    decreases |servers|
  {
    if servers == [] then Outcome(m, None)
    else
      var s := servers[0];
      var pruned := if Stopped(docker, s.containerId) then m.(servers := RemoveFromList(m.servers, s)) else m;
      match GetTemplate(templates, s.templateName)
      case None => Outcome(pruned, Some(s.templateName))
      case Some(t) =>
        var next := if IsDynamic(t) then pruned.(calls := pruned.calls + [DeleteInBackground(s.containerId, true)]) else pruned;
        assert forall i :: 1 <= i < |servers| ==> servers[i] == servers[1..][i - 1];
        CheckEach(next, docker, templates, servers[1..])
  }

  /** One pass of `shutdownChecker` (lines 125-148) over the list as read. */
  function ShutdownCheck(m: LegacyManager, docker: Orchestrator.Containers, templates: DataTemplates): (o: Outcome)
    ensures o.manager.serverIds == m.serverIds && o.manager.published == m.published
    ensures o.missing.None? <==> forall s :: s in m.servers ==> GetTemplate(templates, s.templateName).Some?
  {
    CheckEach(m, docker, templates, m.servers)
  }

  /** The deletions a pass that runs to the end requests: one per entry of a
      dynamic template, in list order. */
  function DynamicDeletes(templates: DataTemplates, servers: seq<ListedServer>): seq<ContainerCall>
    decreases |servers|
  {
    if servers == [] then []
    else
      (match GetTemplate(templates, servers[0].templateName)
        case Some(t) => if IsDynamic(t) then [DeleteInBackground(servers[0].containerId, true)] else []
        case None => [])
      + DynamicDeletes(templates, servers[1..])
  }

  /** A pass that runs to the end keeps exactly the entries whose container
      runs, and deletes every dynamic container whatever its state. */
  lemma {:induction false} CheckEachEffect(m: LegacyManager, docker: Orchestrator.Containers, templates: DataTemplates, servers: seq<ListedServer>, y: ListedServer)
    requires CheckEach(m, docker, templates, servers).missing.None?
    ensures CheckEach(m, docker, templates, servers).manager.calls == m.calls + DynamicDeletes(templates, servers)
    ensures y in CheckEach(m, docker, templates, servers).manager.servers <==>
      y in m.servers && !(y in servers && Stopped(docker, y.containerId))
    decreases |servers|
  {
    if servers != [] {
      var s := servers[0];
      var pruned := if Stopped(docker, s.containerId) then m.(servers := RemoveFromList(m.servers, s)) else m;
      var t := GetTemplate(templates, s.templateName).value;
      var next := if IsDynamic(t) then pruned.(calls := pruned.calls + [DeleteInBackground(s.containerId, true)]) else pruned;
      assert CheckEach(m, docker, templates, servers) == CheckEach(next, docker, templates, servers[1..]);
      CheckEachEffect(next, docker, templates, servers[1..], y);
      assert y in servers <==> y == s || y in servers[1..];
    }
  }

  lemma ShutdownCheckEffect(m: LegacyManager, docker: Orchestrator.Containers, templates: DataTemplates, y: ListedServer)
    requires ShutdownCheck(m, docker, templates).missing.None?
    ensures ShutdownCheck(m, docker, templates).manager.calls == m.calls + DynamicDeletes(templates, m.servers)
    ensures y in ShutdownCheck(m, docker, templates).manager.servers <==> y in m.servers && !Stopped(docker, y.containerId)
  {
    CheckEachEffect(m, docker, templates, m.servers, y);
  }

  /** master/redis/ServerHandler.kt `handleEvent`: a creation request for a
      known template creates one server of it; anything else does nothing. */
  function HandleEvent(m: LegacyManager, templates: DataTemplates, event: Event, ports: PortSearch): (r: Created)
    ensures !event.CreateServerRequested? ==> r == Created(m, None)
    ensures event.CreateServerRequested? && GetTemplate(templates, event.templateName).None? ==> r == Created(m, None)
    ensures r.manager.servers == m.servers && r.manager.serverIds == m.serverIds && r.manager.published == m.published
    ensures r.failure.Some? <==>
      event.CreateServerRequested? && GetTemplate(templates, event.templateName).Some? && ports(|m.calls|).None?
    ensures r.failure.Some? ==> r.manager == m
    ensures event.CreateServerRequested? && GetTemplate(templates, event.templateName).Some? && r.failure.None? ==>
      |r.manager.calls| == |m.calls| + 1 && r.manager.calls[..|m.calls|] == m.calls
      && r.manager.calls[|m.calls|].CreateContainer?
      && r.manager.calls[|m.calls|].template == GetTemplate(templates, event.templateName).value
      && r.manager.calls[|m.calls|].port == ports(|m.calls|).value
  {
    match event
    case CreateServerRequested(name) =>
      (match GetTemplate(templates, name)
        case None => Created(m, None)
        case Some(t) => CreateServer(m, t, ports))
    case _ => Created(m, None)
  }
}
