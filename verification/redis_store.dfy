/** The key-value store as the wrappers reach it through
    shared/redis/RedisCalls.kt (and the older shared/RedisAdapter.kt, which
    behaves the same): the "servers" hash and the log of published messages.
    Reads throw when the store is unreachable; writes and publishes catch
    their own exception, so an unreachable store loses them silently. */
module RedisStore {
  import opened Wrappers
  import opened AssocList
  import opened Model

  /** A stored JSON value: either the encoding of a record, which decodes back
      to it, or text that does not decode. */
  datatype Wire<V> = Encoded(value: V) | Garbled(raw: string)

  /** `up` is false while the store cannot be reached. */
  datatype Store<V> = Store(up: bool, servers: seq<Entry<string, Wire<V>>>, published: seq<Message>)

  datatype Unreachable = Unreachable

  /** `getHash("servers").values`: throws when the store is down. */
  function GetHash<V>(s: Store<V>): (r: Result<seq<Wire<V>>, Unreachable>)
    ensures r.Failure? <==> !s.up
    ensures r.Success? ==> |r.value| == |s.servers|
    ensures r.Success? ==> forall i :: 0 <= i < |s.servers| ==> r.value[i] == s.servers[i].value
  {
    if s.up then Success(Values(s.servers)) else Failure(Unreachable)
  }

  /** `getFromHash("servers", field)`: throws when the store is down. */
  function GetFromHash<V>(s: Store<V>, field: string): (r: Result<Option<Wire<V>>, Unreachable>)
    ensures r.Failure? <==> !s.up
    ensures r.Success? ==> (r.value.None? <==> !HasKey(s.servers, field))
  {
    if s.up then Success(Get(s.servers, field)) else Failure(Unreachable)
  }

  /** `addToHash("servers", field, value)`: the exception is caught inside. */
  function AddToHash<V>(s: Store<V>, field: string, value: Wire<V>): (r: Store<V>)
    ensures r.up == s.up && r.published == s.published
    ensures s.up ==> Get(r.servers, field) == Some(value)
    ensures s.up ==> forall f :: f != field ==> Get(r.servers, f) == Get(s.servers, f)
    ensures !s.up ==> r == s
  {
    if s.up then s.(servers := Put(s.servers, field, value)) else s
  }

  /** `removeFromHash("servers", field)`: the exception is caught inside. */
  function RemoveFromHash<V(!new)>(s: Store<V>, field: string): (r: Store<V>)
    ensures r.up == s.up && r.published == s.published
    ensures s.up ==> Get(r.servers, field) == None
    ensures s.up ==> forall f :: f != field ==> Get(r.servers, f) == Get(s.servers, f)
    ensures UniqueKeys(s.servers) ==> UniqueKeys(r.servers)
    ensures !s.up ==> r == s
  {
    if s.up then s.(servers := Remove(s.servers, field)) else s
  }

  /** `emitEvent(channel, event)`: the exception is caught inside. */
  function EmitEvent<V>(s: Store<V>, m: Message): (r: Store<V>)
    ensures r.up == s.up && r.servers == s.servers
    ensures r.published == if s.up then s.published + [m] else s.published
  {
    if s.up then s.(published := s.published + [m]) else s
  }

  /** The wrapper's `mapNotNull` decode: values that do not decode are
      skipped, the others kept in hash order. */
  function Decoded<V(!new)>(ws: seq<Wire<V>>): (r: seq<V>)
    ensures forall v :: v in r <==> Encoded(v) in ws
    ensures |r| <= |ws|
  {
    if ws == [] then []
    else
      assert forall w :: w in ws <==> w == ws[0] || w in ws[1..];
      if ws[0].Encoded? then [ws[0].value] + Decoded(ws[1..]) else Decoded(ws[1..])
  }

  /** The older wrapper's plain `map` decode: one value that does not decode
      makes the whole read throw. */
  function AllDecoded<V>(ws: seq<Wire<V>>): (r: Option<seq<V>>)
    ensures r.None? <==> exists i :: 0 <= i < |ws| && ws[i].Garbled?
    ensures r.Some? ==> |r.value| == |ws| && forall i :: 0 <= i < |ws| ==> ws[i] == Encoded(r.value[i])
  {
    if ws == [] then Some([])
    else if ws[0].Garbled? then None
    else
      var rest := AllDecoded(ws[1..]);
      assert forall i :: 1 <= i < |ws| ==> ws[i] == ws[1..][i - 1];
      if rest.None? then None else Some([ws[0].value] + rest.value)
  }

  /** When every value decodes, both decoders agree. */
  lemma {:induction false} AllDecodedAgrees<V(!new)>(ws: seq<Wire<V>>)
    requires AllDecoded(ws).Some?
    ensures AllDecoded(ws).value == Decoded(ws)
  {
    if ws != [] {
      AllDecodedAgrees(ws[1..]);
    }
  }

  /** Decoding distributes over concatenation. */
  lemma {:induction false} DecodedAppend<V(!new)>(a: seq<Wire<V>>, b: seq<Wire<V>>)
    ensures Decoded(a + b) == Decoded(a) + Decoded(b)
  {
    if a == [] {
      assert a + b == b;
    } else {
      assert (a + b)[1..] == a[1..] + b;
      DecodedAppend(a[1..], b);
    }
  }
}
