/** The Velocity plugin's reaction to the cloud: the set of servers the proxy
    knows (proxy/redis/ServerHandler.kt and the start-up registration in
    proxy/ProxyPlugin.kt) and the choice of a lobby when a player joins or is
    kicked (proxy/listener/ConnectionListener.kt, proxy/listener/KickListener.kt
    and the copies of both handlers in ProxyPlugin.kt). The proxy's server
    collection is a sequence in the order `allServers` lists it. */
module Proxy {
  import opened Wrappers
  import opened Model
  import opened Text
  import opened LegacyRedisWrapper
  import opened Sublist

  datatype Address = Address(host: string, port: int)

  /** A server the proxy has registered, with its connected player count. */
  datatype RegisteredServer = RegisteredServer(name: string, address: Address, playersConnected: nat)

  type Registry = seq<RegisteredServer>

  datatype Player = Player(username: string, permissions: set<string>)

  /** The notification settings ServerHandler reads. */
  datatype NotifyConfig = NotifyConfig(
    startingEnabled: bool, startingMessage: string,
    onlineEnabled: bool, onlineMessage: string,
    stopEnabled: bool, stopMessage: string)

  datatype Delivery = Delivery(username: string, text: string)

  /** The registry after an event and the messages sent because of it. */
  datatype Reaction = Reaction(registry: Registry, deliveries: seq<Delivery>)

  const NotifyPermission := "kloud.notify"

  const Placeholder := "{serverName}"

  /** Lines 17-25: every server is reached through the Docker host. */
  function AddressOf(port: int): Address {
    Address("host.docker.internal", port)
  }

  /** `getServer(name)`: the registered server of that name. */
  function Lookup(reg: Registry, name: string): (r: Option<RegisteredServer>)
    ensures r.Some? <==> exists i :: 0 <= i < |reg| && reg[i].name == name
    ensures r.Some? ==> r.value in reg && r.value.name == name
  {
    if reg == [] then None
    else if reg[0].name == name then Some(reg[0])
    else Lookup(reg[1..], name)
  }

  /** `registerServer`: a name already known keeps its entry. */
  function Register(reg: Registry, name: string, address: Address): (r: Registry)
    ensures Lookup(reg, name).Some? ==> r == reg
    ensures Lookup(reg, name).None? ==> r == reg + [RegisteredServer(name, address, 0)]
  {
    if Lookup(reg, name).Some? then reg else reg + [RegisteredServer(name, address, 0)]
  }

  /** `unregisterServer`: drop the entry of that name. */
  function Unregister(reg: Registry, name: string): (r: Registry)
    ensures forall s :: s in r <==> s in reg && s.name != name
    ensures |r| <= |reg|
  {
    if reg == [] then []
    else (if reg[0].name == name then [] else [reg[0]]) + Unregister(reg[1..], name)
  }

  /** Unregistering a name the registry does not hold changes nothing. */
  lemma {:induction false} UnregisterAbsent(reg: Registry, name: string)
    requires Lookup(reg, name).None?
    ensures Unregister(reg, name) == reg
  {
    if reg != [] {
      UnregisterAbsent(reg[1..], name);
    }
  }

  /** Adding a name and then removing it restores the registry. */
  lemma {:induction false} RegisterThenUnregister(reg: Registry, name: string, address: Address)
    requires Lookup(reg, name).None?
    ensures Unregister(Register(reg, name, address), name) == reg
  {
    UnregisterAppend(reg, [RegisteredServer(name, address, 0)], name);
    UnregisterAbsent(reg, name);
    assert Unregister([RegisteredServer(name, address, 0)], name) == [] + Unregister([], name);
  }

  lemma {:induction false} UnregisterAppend(a: Registry, b: Registry, name: string)
    ensures Unregister(a + b, name) == Unregister(a, name) + Unregister(b, name)
  {
    if a != [] {
      assert (a + b)[1..] == a[1..] + b;
      UnregisterAppend(a[1..], b, name);
    } else {
      assert a + b == b;
    }
  }

  /** The text configured for a state, or nothing when that notification is
      switched off or blank (lines 38-70). The enum has no STOPPING, so the
      handler has no branch for it. */
  function ConfiguredMessage(config: NotifyConfig, state: ServerState): (r: Option<string>)
    ensures state.Stopping? ==> r.None?
    ensures r.Some? ==> !IsBlank(r.value)
  {
    match state
    case Starting => if !config.startingEnabled || IsBlank(config.startingMessage) then None else Some(config.startingMessage)
    case Running => if !config.onlineEnabled || IsBlank(config.onlineMessage) then None else Some(config.onlineMessage)
    case Gone => if !config.stopEnabled || IsBlank(config.stopMessage) then None else Some(config.stopMessage)
    case Stopping => None
  }

  /** A message made only of Unicode spaces counts as blank (line 50), so
      the online notification is not sent even when it is switched on. */
  lemma SpaceOnlyMessageSilent(config: NotifyConfig)
    requires config.onlineMessage == "\U{3000}"
    ensures ConfiguredMessage(config, Running).None?
  {
    UnicodeSpacesBlank();
  }

  /** Lines 43, 54, 69: the server's name goes where the placeholder is. */
  function Notification(message: string, serverName: string): (r: string)
    ensures !Occurs(message, Placeholder) ==> r == message
  {
    if Occurs(message, Placeholder) then ReplaceAll(message, Placeholder, serverName)
    else
      ReplaceAbsent(message, Placeholder, serverName);
      ReplaceAll(message, Placeholder, serverName)
  }

  /** Lines 73-77: the message goes to every player holding the permission,
      in the proxy's player order. */
  function Broadcast(players: seq<Player>, text: string): (r: seq<Delivery>)
    ensures forall d :: d in r ==> d.text == text
    ensures forall p :: p in players && NotifyPermission in p.permissions ==> Delivery(p.username, text) in r
    ensures forall d :: d in r ==> exists p :: p in players && NotifyPermission in p.permissions && p.username == d.username
  {
    if players == [] then []
    else
      (if NotifyPermission in players[0].permissions then [Delivery(players[0].username, text)] else [])
      + Broadcast(players[1..], text)
  }

  /** The registry change of one state event for a proxied server. */
  function Track(reg: Registry, server: Server, state: ServerState): (r: Registry)
    ensures state.Running? ==> (Lookup(r, server.serverName).Some?
      && (Lookup(reg, server.serverName).None? ==> Lookup(r, server.serverName).value.address == AddressOf(server.connectionPort)))
    ensures state.Gone? ==> Lookup(r, server.serverName).None?
    ensures forall n :: n != server.serverName ==> Lookup(r, n) == Lookup(reg, n)
    ensures !state.Running? && !state.Gone? ==> r == reg
  {
    LookupAfterRegister(reg, server.serverName, AddressOf(server.connectionPort));
    LookupAfterUnregister(reg, server.serverName);
    match state
    case Running => Register(reg, server.serverName, AddressOf(server.connectionPort))
    case Gone => Unregister(reg, server.serverName)
    case _ => reg
  }

  /** `ServerHandler.handleEvent` on the proxy (lines 30-82). */
  function HandleEvent(reg: Registry, players: seq<Player>, config: NotifyConfig, event: Event): (r: Reaction)
    ensures !(event.ServerUpdateState? && event.server.template.serverType == ProxiedServer) ==> r == Reaction(reg, [])
    ensures event.ServerUpdateState? && event.state.Starting? ==> r.registry == reg
    ensures event.ServerUpdateState? && event.server.template.serverType == ProxiedServer && event.state.Running? ==>
      Lookup(r.registry, event.server.serverName).Some?
      && (forall n :: n != event.server.serverName ==> Lookup(r.registry, n) == Lookup(reg, n))
      && (Lookup(reg, event.server.serverName).None? ==>
            Lookup(r.registry, event.server.serverName).value.address == AddressOf(event.server.connectionPort))
    ensures event.ServerUpdateState? && event.server.template.serverType == ProxiedServer && event.state.Gone? ==>
      Lookup(r.registry, event.server.serverName).None?
      && (forall n :: n != event.server.serverName ==> Lookup(r.registry, n) == Lookup(reg, n))
    ensures event.ServerUpdateState? && event.server.template.serverType == ProxiedServer ==>
      (ConfiguredMessage(config, event.state).None? ==> r.deliveries == [])
      && (forall d :: d in r.deliveries ==>
            d.text == Notification(ConfiguredMessage(config, event.state).value, event.server.serverName))
  {
    match event
    case ServerUpdateState(server, state) =>
      if server.template.serverType != ProxiedServer then Reaction(reg, [])
      else
        var reg' := Track(reg, server, state);
        (match ConfiguredMessage(config, state)
         case None => Reaction(reg', [])
         case Some(message) => Reaction(reg', Broadcast(players, Notification(message, server.serverName))))
    case _ => Reaction(reg, [])
  }

  /** A GONE event for a server the proxy does not know leaves the registry
      exactly as it is. */
  lemma GoneForUnknownKeepsRegistry(reg: Registry, players: seq<Player>, config: NotifyConfig, server: Server)
    requires Lookup(reg, server.serverName).None?
    ensures HandleEvent(reg, players, config, ServerUpdateState(server, Gone)).registry == reg
  {
    UnregisterAbsent(reg, server.serverName);
  }

  /** RUNNING then GONE for a server the proxy did not know restores the
      registry. */
  lemma RunningThenGone(reg: Registry, players: seq<Player>, config: NotifyConfig, server: Server)
    requires server.template.serverType == ProxiedServer
    requires Lookup(reg, server.serverName).None?
    ensures var up := HandleEvent(reg, players, config, ServerUpdateState(server, Running)).registry;
      HandleEvent(up, players, config, ServerUpdateState(server, Gone)).registry == reg
  {
    RegisterThenUnregister(reg, server.serverName, AddressOf(server.connectionPort));
  }

  /** Exactly the permitted players are notified, each with the message. */
  lemma NotifiedExactlyPermitted(reg: Registry, players: seq<Player>, config: NotifyConfig, server: Server, state: ServerState)
    requires server.template.serverType == ProxiedServer
    requires ConfiguredMessage(config, state).Some?
    ensures var r := HandleEvent(reg, players, config, ServerUpdateState(server, state));
      var text := Notification(ConfiguredMessage(config, state).value, server.serverName);
      (forall p :: p in players && NotifyPermission in p.permissions ==> Delivery(p.username, text) in r.deliveries)
      && (forall d :: d in r.deliveries ==>
            exists p :: p in players && NotifyPermission in p.permissions && p.username == d.username)
  {
  }

  /** A message without the placeholder is sent as configured. */
  lemma PlainMessageUnchanged(message: string, serverName: string)
    requires !Occurs(message, Placeholder)
    ensures Notification(message, serverName) == message
  {
    ReplaceAbsent(message, Placeholder, serverName);
  }

  /** The names of the stored records of proxied servers. */
  function ProxiedNames(records: seq<RedisServer>): set<string> {
    set i | 0 <= i < |records| && records[i].serverType == ProxiedServer :: records[i].serverName
  }

  lemma ProxiedNamesCons(records: seq<RedisServer>)
    requires records != []
    ensures ProxiedNames(records)
      == (if records[0].serverType == ProxiedServer then {records[0].serverName} else {}) + ProxiedNames(records[1..])
  {
    var tail := records[1..];
    forall n | n in ProxiedNames(records)
      ensures n in (if records[0].serverType == ProxiedServer then {records[0].serverName} else {}) + ProxiedNames(tail)
    {
      var i :| 0 <= i < |records| && records[i].serverType == ProxiedServer && records[i].serverName == n;
      if i > 0 {
        assert tail[i - 1] == records[i];
      }
    }
    forall n | n in ProxiedNames(tail)
      ensures n in ProxiedNames(records)
    {
      var i :| 0 <= i < |tail| && tail[i].serverType == ProxiedServer && tail[i].serverName == n;
      assert records[i + 1] == tail[i];
    }
  }

  /** `handleInitialize` (ProxyPlugin.kt lines 55-64): each stored record of
      a proxied server is registered, in the hash's order. Afterwards the
      proxy knows what it knew before plus exactly the proxied servers in the
      store, and an entry it already had is kept. */
  function RegisterStored(reg: Registry, records: seq<RedisServer>): (r: Registry)
    ensures forall n :: Lookup(r, n).Some? <==> Lookup(reg, n).Some? || n in ProxiedNames(records)
    ensures forall n :: Lookup(reg, n).Some? ==> Lookup(r, n) == Lookup(reg, n)
    decreases |records|
  {
    if records == [] then reg
    else
      var s := records[0];
      var reg' := if s.serverType == ProxiedServer then Register(reg, s.serverName, AddressOf(s.connectionPort)) else reg;
      LookupAfterRegister(reg, s.serverName, AddressOf(s.connectionPort));
      ProxiedNamesCons(records);
      RegisterStored(reg', records[1..])
  }

  /** An unregistration leaves the name unknown and every other name as it was. */
  lemma LookupAfterUnregister(reg: Registry, name: string)
    ensures Lookup(Unregister(reg, name), name).None?
    ensures forall n :: n != name ==> Lookup(Unregister(reg, name), n) == Lookup(reg, n)
  {
    forall n | n != name
      ensures Lookup(Unregister(reg, name), n) == Lookup(reg, n)
    {
      LookupUnregisterOther(reg, name, n);
    }
  }

  /** Unregistering one name leaves the entry every other name finds. */
  lemma {:induction false} LookupUnregisterOther(reg: Registry, name: string, n: string)
    requires n != name
    ensures Lookup(Unregister(reg, name), n) == Lookup(reg, n)
  {
    if reg != [] {
      LookupUnregisterOther(reg[1..], name, n);
      if reg[0].name != name {
        assert Unregister(reg, name) == [reg[0]] + Unregister(reg[1..], name);
        assert ([reg[0]] + Unregister(reg[1..], name))[1..] == Unregister(reg[1..], name);
      } else {
        assert Unregister(reg, name) == Unregister(reg[1..], name);
      }
    }
  }

  /** How a registration changes lookups. */
  lemma LookupAfterRegister(reg: Registry, name: string, address: Address)
    ensures Lookup(Register(reg, name, address), name).Some?
    ensures Lookup(reg, name).None? ==> Lookup(Register(reg, name, address), name) == Some(RegisteredServer(name, address, 0))
    ensures forall n :: n != name ==> Lookup(Register(reg, name, address), n) == Lookup(reg, n)
  {
    if Lookup(reg, name).None? {
      LookupAppend(reg, RegisteredServer(name, address, 0));
    }
  }

  lemma {:induction false} LookupAppend(reg: Registry, s: RegisteredServer)
    ensures Lookup(reg + [s], s.name) == (if Lookup(reg, s.name).Some? then Lookup(reg, s.name) else Some(s))
    ensures forall n :: n != s.name ==> Lookup(reg + [s], n) == Lookup(reg, n)
  {
    if reg == [] {
      assert reg + [s] == [s];
    } else {
      assert (reg + [s])[1..] == reg[1..] + [s];
      LookupAppend(reg[1..], s);
    }
  }

  /** Kotlin's `minByOrNull { it.playersConnected.size }`: the position of
      the first server with the fewest players. */
  function FewestPlayers(servers: seq<RegisteredServer>): (k: nat)
    requires |servers| > 0
    ensures k < |servers|
    ensures forall j :: 0 <= j < |servers| ==> servers[k].playersConnected <= servers[j].playersConnected
    ensures forall j :: 0 <= j < k ==> servers[j].playersConnected > servers[k].playersConnected
  {
    if |servers| == 1 then 0
    else
      var k := FewestPlayers(servers[1..]);
      if servers[0].playersConnected <= servers[1 + k].playersConnected then 0 else 1 + k
  }

  /** The first server with the fewest players, if there is any server. */
  function Least(servers: seq<RegisteredServer>): (r: Option<RegisteredServer>)
    ensures r.None? <==> servers == []
    ensures r.Some? ==> r.value in servers
    ensures r.Some? ==> forall s :: s in servers ==> r.value.playersConnected <= s.playersConnected
  {
    if servers == [] then None else Some(servers[FewestPlayers(servers)])
  }

  /** Kotlin's `find`: the first record with that server name. */
  function FindRecord(records: seq<RedisServer>, name: string): (r: Option<RedisServer>)
    ensures r.Some? ==> r.value in records && r.value.serverName == name
    ensures r.None? <==> forall s :: s in records ==> s.serverName != name
  {
    if records == [] then None
    else if records[0].serverName == name then Some(records[0])
    else FindRecord(records[1..], name)
  }

  /** ConnectionListener.kt lines 19-24: a registered server is a lobby
      candidate when the first stored record with its name is a lobby. */
  predicate IsLobby(records: seq<RedisServer>, s: RegisteredServer) {
    FindRecord(records, s.name).Some? && FindRecord(records, s.name).value.lobby
  }

  /** The test of line 24, for the records as read. */
  function LobbyTest(records: seq<RedisServer>): RegisteredServer -> bool {
    (s: RegisteredServer) => IsLobby(records, s)
  }

  /** `allServers.filter { … }` (lines 23-24): the lobby servers, in the
      proxy's order. */
  function LobbyCandidates(reg: Registry, records: seq<RedisServer>): (r: Registry)
    ensures forall s :: s in r <==> s in reg && IsLobby(records, s)
    ensures |r| <= |reg|
    ensures IsSelection(reg, LobbyTest(records), r)
  {
    SelectIsSelection(reg, LobbyTest(records));
    Select(reg, LobbyTest(records))
  }

  /** `onPlayerChooseInitialServer` (ConnectionListener.kt lines 16-41 and
      its copy in ProxyPlugin.kt lines 70-95): the initial server, or none. */
  function ChooseInitialServer(reg: Registry, records: seq<RedisServer>): (r: Option<RegisteredServer>)
    ensures r.None? <==> forall s :: s in reg ==> !IsLobby(records, s)
    ensures r.Some? ==> r.value in reg && IsLobby(records, r.value)
    ensures r.Some? ==> forall s :: s in reg && IsLobby(records, s) ==> r.value.playersConnected <= s.playersConnected
  {
    var candidates := LobbyCandidates(reg, records);
    assert candidates != [] ==> candidates[0] in candidates;
    Least(candidates)
  }

  /** Among the candidates, the chosen one is the first of the fewest: every
      candidate before its position `k` in the proxy's order has strictly
      more players. */
  lemma ChosenIsFirstOfFewest(reg: Registry, records: seq<RedisServer>) returns (k: nat)
    requires ChooseInitialServer(reg, records).Some?
    ensures k < |LobbyCandidates(reg, records)|
    ensures LobbyCandidates(reg, records)[k] == ChooseInitialServer(reg, records).value
    ensures forall j :: 0 <= j < k ==>
      LobbyCandidates(reg, records)[j].playersConnected > LobbyCandidates(reg, records)[k].playersConnected
  {
    var candidates := LobbyCandidates(reg, records);
    k := FewestPlayers(candidates);
  }

  /** The outcome of a kick: a redirect, or a notice to the player. */
  datatype KickResult = Redirect(server: RegisteredServer) | Notify(text: string)

  const NoServerNotice := "Sorry, no available servers at the moment. Please try again later."

  /** KickListener.kt lines 24-25: the registered server of each lobby record
      not named like the server the player left, in record order. */
  function KickCandidates(lobbies: seq<RedisServer>, reg: Registry, kicked: string): (r: Registry)
    ensures forall s :: s in r ==> s in reg && s.name != kicked
    ensures forall s :: s in r ==> exists l :: l in lobbies && l.serverName == s.name
    ensures forall l :: l in lobbies && l.serverName != kicked && Lookup(reg, l.serverName).Some? ==>
      Lookup(reg, l.serverName).value in r
  {
    if lobbies == [] then []
    else
      var l := lobbies[0];
      (if l.serverName != kicked && Lookup(reg, l.serverName).Some? then [Lookup(reg, l.serverName).value] else [])
      + KickCandidates(lobbies[1..], reg, kicked)
  }

  /** The redirect for a candidate list, or the fixed notice (lines 27-36). */
  function Reassign(candidates: Registry): (r: KickResult)
    ensures r.Notify? <==> candidates == []
    ensures r.Notify? ==> r.text == NoServerNotice
    ensures r.Redirect? ==> (r.server in candidates
      && forall s :: s in candidates ==> r.server.playersConnected <= s.playersConnected)
    ensures r.Redirect? ==>
      exists k :: 0 <= k < |candidates| && candidates[k] == r.server
        && forall j :: 0 <= j < k ==> candidates[j].playersConnected > r.server.playersConnected
  {
    match Least(candidates)
    case None => Notify(NoServerNotice)
    case Some(s) =>
      assert candidates[FewestPlayers(candidates)] == s;
      Redirect(s)
  }

  /** `onKickedFromServer` (KickListener.kt lines 17-37) on the stored lobby
      records: never back to the server the player was kicked from. */
  function OnKicked(st: LegacyStore, reg: Registry, kicked: string): (r: KickResult)
    ensures r.Redirect? ==> r.server in reg && r.server.name != kicked
    ensures r.Redirect? ==> exists l :: l in GetAllServers(st) && l.lobby && l.serverName == r.server.name
    ensures r.Notify? <==> forall l :: l in GetLobbyServers(st) && l.serverName != kicked ==> Lookup(reg, l.serverName).None?
    ensures r.Notify? ==> r.text == NoServerNotice
    ensures r.Redirect? ==> forall l :: l in GetLobbyServers(st) && l.serverName != kicked && Lookup(reg, l.serverName).Some? ==>
      r.server.playersConnected <= Lookup(reg, l.serverName).value.playersConnected
    ensures r.Redirect? ==>
      var candidates := KickCandidates(GetLobbyServers(st), reg, kicked);
      exists k :: 0 <= k < |candidates| && candidates[k] == r.server
        && forall j :: 0 <= j < k ==> candidates[j].playersConnected > r.server.playersConnected
  {
    var candidates := KickCandidates(GetLobbyServers(st), reg, kicked);
    KickedToFewest(GetLobbyServers(st), reg, kicked);
    Reassign(candidates)
  }

  /** Redirecting among the kick candidates: to no server of the one left,
      to one that is not fuller than any other stored lobby, and a notice
      only when no stored lobby is registered. */
  lemma KickedToFewest(lobbies: seq<RedisServer>, reg: Registry, kicked: string)
    ensures Reassign(KickCandidates(lobbies, reg, kicked)).Notify? <==>
      forall l :: l in lobbies && l.serverName != kicked ==> Lookup(reg, l.serverName).None?
    ensures Reassign(KickCandidates(lobbies, reg, kicked)).Redirect? ==>
      forall l :: l in lobbies && l.serverName != kicked && Lookup(reg, l.serverName).Some? ==>
        Reassign(KickCandidates(lobbies, reg, kicked)).server.playersConnected <= Lookup(reg, l.serverName).value.playersConnected
  {
    var candidates := KickCandidates(lobbies, reg, kicked);
    assert candidates != [] ==> candidates[0] in candidates;
  }

  /** The copy in ProxyPlugin.kt (lines 107-108) filters name and lobby flag
      together on all records. */
  function PluginKickCandidates(records: seq<RedisServer>, reg: Registry, kicked: string): Registry {
    if records == [] then []
    else
      var l := records[0];
      (if l.serverName != kicked && l.lobby && Lookup(reg, l.serverName).Some? then [Lookup(reg, l.serverName).value] else [])
      + PluginKickCandidates(records[1..], reg, kicked)
  }

  /** `onKickedFromServer` in ProxyPlugin.kt (lines 98-120). */
  function OnKickedPlugin(records: seq<RedisServer>, reg: Registry, kicked: string): (r: KickResult)
    ensures r == Reassign(PluginKickCandidates(records, reg, kicked))
    ensures r.Notify? <==> forall l :: l in records && l.lobby && l.serverName != kicked ==> Lookup(reg, l.serverName).None?
    ensures r.Redirect? ==> r.server in reg && r.server.name != kicked
    ensures r.Redirect? ==> forall l :: l in records && l.lobby && l.serverName != kicked && Lookup(reg, l.serverName).Some? ==>
      r.server.playersConnected <= Lookup(reg, l.serverName).value.playersConnected
  {
    KickCandidatesAgree(records, reg, kicked);
    KickedToFewest(Lobbies(records), reg, kicked);
    Reassign(PluginKickCandidates(records, reg, kicked))
  }

  /** Filtering the lobby flag first and the name second picks the same
      servers in the same order as filtering both at once. */
  lemma {:induction false} KickCandidatesAgree(records: seq<RedisServer>, reg: Registry, kicked: string)
    ensures KickCandidates(Lobbies(records), reg, kicked) == PluginKickCandidates(records, reg, kicked)
  {
    if records != [] {
      KickCandidatesAgree(records[1..], reg, kicked);
      if records[0].lobby {
        assert Lobbies(records) == [records[0]] + Lobbies(records[1..]);
        assert ([records[0]] + Lobbies(records[1..]))[1..] == Lobbies(records[1..]);
      }
    }
  }

  /** Both kick handlers answer alike whenever every stored value decodes. */
  lemma KickHandlersAgree(st: LegacyStore, reg: Registry, kicked: string, records: seq<RedisServer>)
    requires GetAllServers(st) == records
    ensures OnKicked(st, reg, kicked) == OnKickedPlugin(records, reg, kicked)
  {
    KickCandidatesAgree(records, reg, kicked);
  }
}
