/** shared/redis/RedisWrapper.kt: the shared registry of live servers, a hash
    from internal id to the server's JSON, plus the publication of state
    events. Every read answers empty or `null` when the store cannot be
    reached; every write and publication answers `true` regardless. */
module RedisWrapper {
  import opened Wrappers
  import opened AssocList
  import opened Model
  import opened Text
  import opened RedisStore
  import opened Sublist

  type ServerStore = Store<Server>

  /** The invariant the wrapper's own writes keep: one entry per key, and each
      decodable entry stored under its server's internal id. */
  predicate Valid(st: ServerStore) {
    UniqueKeys(st.servers)
    && forall i :: 0 <= i < |st.servers| && st.servers[i].value.Encoded? ==>
         st.servers[i].key == st.servers[i].value.value.internalId
  }

  /** The servers the hash holds, in hash order. */
  predicate Stored(st: ServerStore, s: Server) {
    exists i :: 0 <= i < |st.servers| && st.servers[i].value == Encoded(s)
  }

  /** `getAllServers`: every server that decodes; empty when the store is down. */
  function GetAllServers(st: ServerStore): (r: seq<Server>)
    ensures !st.up ==> r == []
    ensures st.up ==> forall s :: s in r <==> Stored(st, s)
    ensures |r| <= |st.servers|
  {
    match GetHash(st)
    case Failure(_) => []
    case Success(values) =>
      var r := Decoded(values);
      assert forall s :: Encoded(s) in values <==> Stored(st, s) by {
        forall s
          ensures Encoded(s) in values <==> Stored(st, s)
        {
          if Encoded(s) in values {
            var i :| 0 <= i < |values| && values[i] == Encoded(s);
            assert st.servers[i].value == Encoded(s);
          }
        }
      }
      r
  }

  /** The test `getServersByTemplate` filters with. */
  function TemplateNamed(name: string): Server -> bool {
    (s: Server) => EqualsIgnoreCase(s.template.name, name)
  }

  /** `getServersByTemplate`: the listed servers of that template, ignoring
      case, in listing order and each as often as listed. */
  function GetServersByTemplate(st: ServerStore, name: string): (r: seq<Server>)
    ensures IsSelection(GetAllServers(st), TemplateNamed(name), r)
    ensures forall s :: s in r <==> s in GetAllServers(st) && EqualsIgnoreCase(s.template.name, name)
  {
    SelectIsSelection(GetAllServers(st), TemplateNamed(name));
    Select(GetAllServers(st), TemplateNamed(name))
  }

  /** The first server of `servers` whose name equals `name` ignoring case. */
  function FirstNamed(servers: seq<Server>, name: string): (r: Option<Server>)
    ensures r.None? <==> forall i :: 0 <= i < |servers| ==> !EqualsIgnoreCase(servers[i].serverName, name)
    ensures r.Some? ==> exists i :: (0 <= i < |servers| && servers[i] == r.value
      && EqualsIgnoreCase(r.value.serverName, name)
      && forall j :: 0 <= j < i ==> !EqualsIgnoreCase(servers[j].serverName, name))
  {
    if servers == [] then None
    else if EqualsIgnoreCase(servers[0].serverName, name) then Some(servers[0])
    else
      var r := FirstNamed(servers[1..], name);
      assert forall i :: 1 <= i < |servers| ==> servers[i] == servers[1..][i - 1];
      if r.Some? then
        var k :| 0 <= k < |servers[1..]| && servers[1..][k] == r.value
          && forall j :: 0 <= j < k ==> !EqualsIgnoreCase(servers[1..][j].serverName, name);
        assert servers[k + 1] == r.value;
        assert forall j :: 0 <= j < k + 1 ==> !EqualsIgnoreCase(servers[j].serverName, name) by {
          forall j | 0 <= j < k + 1
            ensures !EqualsIgnoreCase(servers[j].serverName, name)
          {
            if j > 0 {
              assert servers[j] == servers[1..][j - 1];
            }
          }
        }
        r
      else r
  }

  /** `getServerByName`: the first match in listing order, ignoring case. */
  function GetServerByName(st: ServerStore, name: string): (r: Option<Server>)
    ensures r.Some? ==> r.value in GetAllServers(st) && EqualsIgnoreCase(r.value.serverName, name)
    ensures r.None? <==> forall s :: s in GetAllServers(st) ==> !EqualsIgnoreCase(s.serverName, name)
    ensures r.Some? ==> exists i :: (0 <= i < |GetAllServers(st)| && GetAllServers(st)[i] == r.value
      && forall j :: 0 <= j < i ==> !EqualsIgnoreCase(GetAllServers(st)[j].serverName, name))
  {
    FirstNamed(GetAllServers(st), name)
  }

  /** The first server of `servers` running in container `containerId`. */
  function FirstInContainer(servers: seq<Server>, containerId: string): (r: Option<Server>)
    ensures r.None? <==> forall i :: 0 <= i < |servers| ==> servers[i].containerId != containerId
    ensures r.Some? ==> r.value in servers && r.value.containerId == containerId
    ensures r.Some? ==> exists i :: (0 <= i < |servers| && servers[i] == r.value
      && forall j :: 0 <= j < i ==> servers[j].containerId != containerId)
  {
    if servers == [] then None
    else if servers[0].containerId == containerId then Some(servers[0])
    else
      assert forall i :: 1 <= i < |servers| ==> servers[i] == servers[1..][i - 1];
      var r := FirstInContainer(servers[1..], containerId);
      if r.Some? then
        var k :| 0 <= k < |servers[1..]| && servers[1..][k] == r.value
          && forall j :: 0 <= j < k ==> servers[1..][j].containerId != containerId;
        assert servers[k + 1] == r.value;
        assert forall j :: 0 <= j < k + 1 ==> servers[j].containerId != containerId by {
          forall j | 0 <= j < k + 1
            ensures servers[j].containerId != containerId
          {
            if j > 0 {
              assert servers[j] == servers[1..][j - 1];
            }
          }
        }
        r
      else r
  }

  /** `getServerByContainer`: compared exactly; the first match in listing
      order. */
  function GetServerByContainer(st: ServerStore, containerId: string): (r: Option<Server>)
    ensures r.Some? ==> r.value in GetAllServers(st) && r.value.containerId == containerId
    ensures r.None? <==> forall s :: s in GetAllServers(st) ==> s.containerId != containerId
    ensures r.Some? ==> exists i :: (0 <= i < |GetAllServers(st)| && GetAllServers(st)[i] == r.value
      && forall j :: 0 <= j < i ==> GetAllServers(st)[j].containerId != containerId)
  {
    FirstInContainer(GetAllServers(st), containerId)
  }

  /** `getServerByInternal`: one lookup by key; a value that does not decode
      and an unreachable store both answer `null`. */
  function GetServerByInternal(st: ServerStore, internalId: string): (r: Option<Server>)
    ensures r.Some? <==> st.up && Get(st.servers, internalId).Some? && Get(st.servers, internalId).value.Encoded?
    ensures r.Some? ==> Get(st.servers, internalId) == Some(Encoded(r.value))
    ensures r.Some? ==> Stored(st, r.value)
  {
    match GetFromHash(st, internalId)
    case Failure(_) => None
    case Success(None) => None
    case Success(Some(Garbled(_))) => None
    case Success(Some(Encoded(s))) => Some(s)
  }

  /** `saveServer`: stores the server under its internal id. */
  function SaveServer(st: ServerStore, server: Server): (r: (ServerStore, bool))
    ensures r.1
    ensures r.0.published == st.published && r.0.up == st.up
    ensures st.up ==> GetServerByInternal(r.0, server.internalId) == Some(server)
    ensures forall id :: id != server.internalId ==> GetServerByInternal(r.0, id) == GetServerByInternal(st, id)
    ensures !st.up ==> r.0 == st
  {
    (AddToHash(st, server.internalId, Encoded(server)), true)
  }

  /** `removeServer`. */
  function RemoveServer(st: ServerStore, internalId: string): (r: (ServerStore, bool))
    ensures r.1
    ensures r.0.published == st.published && r.0.up == st.up
    ensures GetServerByInternal(r.0, internalId) == None
    ensures forall id :: id != internalId ==> GetServerByInternal(r.0, id) == GetServerByInternal(st, id)
    ensures !st.up ==> r.0 == st
  {
    (RemoveFromHash(st, internalId), true)
  }

  predicate IsLobbyServer(s: Server) {
    s.template.lobby
  }

  /** `getLobbyServers`: exactly the listed lobby servers, in listing order. */
  function GetLobbyServers(st: ServerStore): (r: seq<Server>)
    ensures IsSelection(GetAllServers(st), IsLobbyServer, r)
    ensures forall s :: s in r <==> s in GetAllServers(st) && s.template.lobby
  {
    SelectIsSelection(GetAllServers(st), IsLobbyServer);
    Select(GetAllServers(st), IsLobbyServer)
  }

  /** `getSelfServer`: `kloudId` is the KLOUD_ID environment variable. */
  function GetSelfServer(st: ServerStore, kloudId: Option<string>): (r: Option<Server>)
    ensures kloudId.None? || IsBlank(kloudId.value) ==> r.None?
    ensures r.Some? <==> (kloudId.Some? && !IsBlank(kloudId.value) && st.up
      && Get(st.servers, kloudId.value).Some? && Get(st.servers, kloudId.value).value.Encoded?)
    ensures r.Some? ==> Get(st.servers, kloudId.value) == Some(Encoded(r.value))
    ensures r.Some? ==> r.value.internalId == kloudId.value || !Valid(st)
  {
    if kloudId.None? || IsBlank(kloudId.value) then None
    else
      var r := GetServerByInternal(st, kloudId.value);
      if r.Some? && Valid(st) then
        StoredUnderId(st, kloudId.value);
        r
      else r
  }

  /** A KLOUD_ID made only of no-break spaces is blank (line 106), so the store
      is not read even when it holds a value under that key. */
  lemma NoBreakSpaceIdIgnored(st: ServerStore)
    ensures GetSelfServer(st, Some("\U{00A0}")).None?
  {
    UnicodeSpacesBlank();
  }

  /** `emit`: publishes when the store can be reached, and answers `true`. */
  function Emit(st: ServerStore, channel: Channel, event: Event): (r: (ServerStore, bool))
    ensures r.1
    ensures r.0.servers == st.servers && r.0.up == st.up
    ensures st.up ==> r.0.published == st.published + [Message(channel, event)]
    ensures !st.up ==> r.0 == st
  {
    (EmitEvent(st, Message(channel, event)), true)
  }

  /** `changeServerState(server, state)`: announces the new state on the
      servers channel. */
  function ChangeStateOf(st: ServerStore, server: Server, state: ServerState): (r: (ServerStore, bool))
    ensures r.1
    ensures r.0.servers == st.servers
    ensures st.up ==> r.0.published == st.published + [Message(ServersChannel, ServerUpdateState(server, state))]
    ensures !st.up ==> r.0.published == st.published
  {
    Emit(st, ServersChannel, ServerUpdateState(server, state))
  }

  /** `changeServerState(internalId, state)`: `false`, and nothing published,
      when the id cannot be read back. */
  function ChangeServerState(st: ServerStore, internalId: string, state: ServerState): (r: (ServerStore, bool))
    ensures r.1 <==> GetServerByInternal(st, internalId).Some?
    ensures r.0.servers == st.servers
    ensures !r.1 ==> r.0 == st
    ensures r.1 ==> r.0.published == st.published + [Message(ServersChannel, ServerUpdateState(GetServerByInternal(st, internalId).value, state))]
  {
    match GetServerByInternal(st, internalId)
    case None => (st, false)
    case Some(server) => ChangeStateOf(st, server, state)
  }

  /** In a valid store the value read under an id belongs to that id. */
  lemma StoredUnderId(st: ServerStore, id: string)
    requires Valid(st)
    requires GetServerByInternal(st, id).Some?
    ensures GetServerByInternal(st, id).value.internalId == id
  {
    var i :| 0 <= i < |st.servers| && st.servers[i] == Entry(id, Get(st.servers, id).value);
  }

  /** Saving keeps the store valid. */
  lemma SaveValid(st: ServerStore, server: Server)
    requires Valid(st)
    ensures Valid(SaveServer(st, server).0)
  {
    if st.up {
      var a := st.servers;
      var r := Put(a, server.internalId, Encoded(server));
      PutUnique(a, server.internalId, Encoded(server));
      forall i | 0 <= i < |r| && r[i].value.Encoded?
        ensures r[i].key == r[i].value.value.internalId
      {
        GetUniqueAt(r, i);
        if r[i].key != server.internalId {
          GetValue(a, r[i].key);
        }
      }
    }
  }

  lemma GetValue(a: seq<Entry<string, Wire<Server>>>, k: string)
    requires UniqueKeys(a)
    requires forall i :: 0 <= i < |a| && a[i].value.Encoded? ==> a[i].key == a[i].value.value.internalId
    requires Get(a, k).Some? && Get(a, k).value.Encoded?
    ensures Get(a, k).value.value.internalId == k
  {
    var i :| 0 <= i < |a| && a[i] == Entry(k, Get(a, k).value);
  }

  /** Removing keeps the store valid. */
  lemma RemoveValid(st: ServerStore, internalId: string)
    requires Valid(st)
    ensures Valid(RemoveServer(st, internalId).0)
  {
    if st.up {
      var r := Without(st.servers, {internalId});
      forall i | 0 <= i < |r| && r[i].value.Encoded?
        ensures r[i].key == r[i].value.value.internalId
      {
        assert r[i] in st.servers;
      }
    }
  }

  /** In a valid store, reading by id and listing agree: a server is listed
      exactly when it can be read back under its own id. */
  lemma ListedIffReadable(st: ServerStore, s: Server)
    requires Valid(st) && st.up
    ensures s in GetAllServers(st) <==> GetServerByInternal(st, s.internalId) == Some(s)
  {
    if s in GetAllServers(st) {
      var i :| 0 <= i < |st.servers| && st.servers[i].value == Encoded(s);
      GetUniqueAt(st.servers, i);
    }
  }

  /** A saved server is listed, and can be found by its container. */
  lemma SaveThenList(st: ServerStore, server: Server)
    requires Valid(st) && st.up
    ensures server in GetAllServers(SaveServer(st, server).0)
    ensures GetServerByContainer(SaveServer(st, server).0, server.containerId).Some?
  {
    SaveValid(st, server);
    ListedIffReadable(SaveServer(st, server).0, server);
  }

  /** After a removal no listed server carries the removed id. */
  lemma RemoveThenList(st: ServerStore, internalId: string)
    requires Valid(st)
    ensures forall s :: s in GetAllServers(RemoveServer(st, internalId).0) ==> s.internalId != internalId
  {
    var after := RemoveServer(st, internalId).0;
    RemoveValid(st, internalId);
    forall s | s in GetAllServers(after)
      ensures s.internalId != internalId
    {
      ListedIffReadable(after, s);
    }
  }

  /** An unreachable store loses the write but the caller is told it succeeded. */
  lemma SaveLostWhenDown(st: ServerStore, server: Server)
    requires !st.up
    ensures SaveServer(st, server).1
    ensures GetServerByInternal(SaveServer(st, server).0, server.internalId) == None
  {
  }

  /** Template lookups ignore case: names equal up to case select the same servers. */
  lemma ByTemplateIgnoresCase(st: ServerStore, a: string, b: string)
    requires EqualsIgnoreCase(a, b)
    ensures GetServersByTemplate(st, a) == GetServersByTemplate(st, b)
  {
    var xs := GetAllServers(st);
    forall i | 0 <= i < |xs|
      ensures TemplateNamed(a)(xs[i]) == TemplateNamed(b)(xs[i])
    {
      var n := xs[i].template.name;
      assert EqualsIgnoreCase(n, a) <==> EqualsIgnoreCase(n, b);
    }
    SelectAgrees(xs, TemplateNamed(a), TemplateNamed(b));
  }

  /** A state change announces the server as stored, and only that. */
  lemma ChangeStateAnnounces(st: ServerStore, server: Server, state: ServerState)
    requires Valid(st) && st.up && server in GetAllServers(st)
    ensures ChangeServerState(st, server.internalId, state).1
    ensures ChangeServerState(st, server.internalId, state).0.published
         == st.published + [Message(ServersChannel, ServerUpdateState(server, state))]
  {
    ListedIffReadable(st, server);
  }
}
