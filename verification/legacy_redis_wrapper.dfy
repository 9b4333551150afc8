/** shared/RedisWrapper.kt: the older copy of the shared registry. Servers are
    keyed by container id and described by shared/common/RedisServer.kt; one
    value that does not decode makes the whole listing come back empty. */
module LegacyRedisWrapper {
  import opened Wrappers
  import opened AssocList
  import opened Model
  import opened RedisStore
  import opened Sublist

  /** shared/common/RedisServer.kt. */
  datatype RedisServer = RedisServer(
    containerId: string,
    templateName: string,
    serverName: string,
    serverData: ServerData,
    connectionPort: int,
    serverType: ServerType,
    lobby: bool)

  type LegacyStore = Store<RedisServer>

  /** Each decodable entry is stored under its container id, once. */
  predicate Valid(st: LegacyStore) {
    UniqueKeys(st.servers)
    && forall i :: 0 <= i < |st.servers| && st.servers[i].value.Encoded? ==>
         st.servers[i].key == st.servers[i].value.value.containerId
  }

  /** `getAllServers`: the decode is not guarded per value, so one bad value
      or an unreachable store yields the empty list. */
  function GetAllServers(st: LegacyStore): (r: seq<RedisServer>)
    ensures !st.up ==> r == []
    ensures (exists i :: 0 <= i < |st.servers| && st.servers[i].value.Garbled?) ==> r == []
    ensures st.up && (forall i :: 0 <= i < |st.servers| ==> st.servers[i].value.Encoded?) ==>
      |r| == |st.servers| && forall i :: 0 <= i < |r| ==> st.servers[i].value == Encoded(r[i])
  {
    match GetHash(st)
    case Failure(_) => []
    case Success(values) =>
      var decoded := AllDecoded(values);
      if decoded.None? then []
      else
        assert forall i :: 0 <= i < |st.servers| && st.servers[i].value.Garbled? ==> values[i].Garbled?;
        decoded.value
  }

  /** `getServer(containerId)`. */
  function GetServer(st: LegacyStore, containerId: string): (r: Option<RedisServer>)
    ensures r.Some? <==> st.up && Get(st.servers, containerId).Some? && Get(st.servers, containerId).value.Encoded?
    ensures r.Some? ==> Get(st.servers, containerId) == Some(Encoded(r.value))
  {
    match GetFromHash(st, containerId)
    case Failure(_) => None
    case Success(None) => None
    case Success(Some(Garbled(_))) => None
    case Success(Some(Encoded(s))) => Some(s)
  }

  /** `saveServer`: stored under the container id; always answers `true`. */
  function SaveServer(st: LegacyStore, server: RedisServer): (r: (LegacyStore, bool))
    ensures r.1
    ensures r.0.published == st.published
    ensures st.up ==> GetServer(r.0, server.containerId) == Some(server)
    ensures forall id :: id != server.containerId ==> GetServer(r.0, id) == GetServer(st, id)
    ensures !st.up ==> r.0 == st
  {
    (AddToHash(st, server.containerId, Encoded(server)), true)
  }

  /** `removeServer(containerId)`; always answers `true`. */
  function RemoveServer(st: LegacyStore, containerId: string): (r: (LegacyStore, bool))
    ensures r.1
    ensures r.0.published == st.published
    ensures GetServer(r.0, containerId) == None
    ensures forall id :: id != containerId ==> GetServer(r.0, id) == GetServer(st, id)
    ensures !st.up ==> r.0 == st
  {
    (RemoveFromHash(st, containerId), true)
  }

  predicate IsLobbyRecord(s: RedisServer) {
    s.lobby
  }

  function Lobbies(servers: seq<RedisServer>): seq<RedisServer> {
    Select(servers, IsLobbyRecord)
  }

  /** `getLobbyServers`: filters on the record's own lobby flag, keeping the
      listing order. */
  function GetLobbyServers(st: LegacyStore): (r: seq<RedisServer>)
    ensures IsSelection(GetAllServers(st), IsLobbyRecord, r)
    ensures forall s :: s in r <==> s in GetAllServers(st) && s.lobby
  {
    SelectIsSelection(GetAllServers(st), IsLobbyRecord);
    Lobbies(GetAllServers(st))
  }

  /** `publishEvent`: always answers `true`. */
  function PublishEvent(st: LegacyStore, channel: Channel, event: Event): (r: (LegacyStore, bool))
    ensures r.1
    ensures r.0.servers == st.servers
    ensures r.0.published == if st.up then st.published + [Message(channel, event)] else st.published
  {
    (EmitEvent(st, Message(channel, event)), true)
  }

  /** Where the newer wrapper skips a value that does not decode, this one
      loses the whole listing. */
  lemma OneBadValueHidesAll(st: LegacyStore, good: RedisServer, raw: string)
    requires st.up
    requires st.servers == [Entry(good.containerId, Encoded(good)), Entry("broken", Garbled(raw))]
    ensures GetAllServers(st) == []
    ensures Decoded(Values(st.servers)) == [good]
  {
    assert st.servers[1].value.Garbled?;
    assert Values(st.servers) == [Encoded(good), Garbled(raw)];
    assert Values(st.servers)[1..] == [Garbled(raw)];
  }

  /** When every value decodes, the older listing equals the newer decode. */
  lemma ListingsAgreeWhenClean(st: LegacyStore)
    requires st.up
    requires forall i :: 0 <= i < |st.servers| ==> st.servers[i].value.Encoded?
    ensures GetAllServers(st) == Decoded(Values(st.servers))
  {
    var values := Values(st.servers);
    assert forall i :: 0 <= i < |values| ==> values[i].Encoded?;
    AllDecodedAgrees(values);
  }

  /** Saving keeps the store valid. */
  lemma SaveValid(st: LegacyStore, server: RedisServer)
    requires Valid(st)
    ensures Valid(SaveServer(st, server).0)
  {
    if st.up {
      var a := st.servers;
      var r := Put(a, server.containerId, Encoded(server));
      PutUnique(a, server.containerId, Encoded(server));
      forall i | 0 <= i < |r| && r[i].value.Encoded?
        ensures r[i].key == r[i].value.value.containerId
      {
        GetUniqueAt(r, i);
        if r[i].key != server.containerId {
          var j :| 0 <= j < |a| && a[j] == Entry(r[i].key, Get(a, r[i].key).value);
        }
      }
    }
  }
}
