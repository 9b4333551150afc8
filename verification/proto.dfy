/** The mapping between the shared records and their protobuf messages:
    shared/server/ServerType.kt, shared/templates/DynamicTemplate.kt and
    shared/templates/Template.kt (`toProto` / `fromProto`). */
module Proto {
  import opened Wrappers
  import opened Model

  /** The generated enum, including the value protobuf uses for a number it
      does not know. */
  datatype ProtoServerType = PROXY | PROXIED_SERVER | STANDALONE_SERVER | UNRECOGNIZED(number: int)

  datatype ProtoDynamicTemplate = ProtoDynamicTemplate(minServers: int, maxServers: int, extraDirectories: seq<string>)

  /** The generated template message; it has no priority and no forced port. */
  datatype ProtoTemplate = ProtoTemplate(
    name: string,
    image: string,
    environment: map<string, string>,
    lobby: bool,
    serverType: ProtoServerType,
    requiredPermissions: seq<string>,
    dynamic: Option<ProtoDynamicTemplate>)

  datatype ProtoError = UnknownServerType(number: int)

  function ServerTypeToProto(t: ServerType): (p: ProtoServerType)
    ensures !p.UNRECOGNIZED?
  {
    match t
    case Proxy => PROXY
    case ProxiedServer => PROXIED_SERVER
    case StandaloneServer => STANDALONE_SERVER
  }

  /** `ServerType.fromProto`: throws on an unrecognised value. */
  function ServerTypeFromProto(p: ProtoServerType): (r: Result<ServerType, ProtoError>)
    ensures r.Failure? <==> p.UNRECOGNIZED?
  {
    match p
    case PROXY => Success(Proxy)
    case PROXIED_SERVER => Success(ProxiedServer)
    case STANDALONE_SERVER => Success(StandaloneServer)
    case UNRECOGNIZED(n) => Failure(UnknownServerType(n))
  }

  lemma ServerTypeRoundTrip(t: ServerType)
    ensures ServerTypeFromProto(ServerTypeToProto(t)) == Success(t)
  {
  }

  lemma ProtoServerTypeRoundTrip(p: ProtoServerType)
    requires !p.UNRECOGNIZED?
    ensures ServerTypeToProto(ServerTypeFromProto(p).value) == p
  {
  }

  /** Each server type has its own proto value. */
  lemma ServerTypeToProtoInjective(s: ServerType, t: ServerType)
    requires ServerTypeToProto(s) == ServerTypeToProto(t)
    ensures s == t
  {
    ServerTypeRoundTrip(s);
    ServerTypeRoundTrip(t);
  }

  function DynamicToProto(d: DynamicTemplate): (p: ProtoDynamicTemplate)
    ensures DynamicFromProto(p) == d
  {
    ProtoDynamicTemplate(d.minServers, d.maxServers, d.extraDirectories)
  }

  /** The dynamic block `Template.fromProto` rebuilds from the message. */
  function DynamicFromProto(p: ProtoDynamicTemplate): (d: DynamicTemplate)
    ensures ProtoDynamicTemplate(d.minServers, d.maxServers, d.extraDirectories) == p
  {
    DynamicTemplate(p.minServers, p.maxServers, p.extraDirectories)
  }

  /** `Template.toProto`: every field but priority and forced port; the dynamic
      block only when present. */
  function TemplateToProto(t: Template): (p: ProtoTemplate)
    ensures !p.serverType.UNRECOGNIZED?
    ensures TemplateFromProto(p) == Success(t.(priority := 0, forcedPort := None))
  {
    ServerTypeRoundTrip(t.serverType);
    ProtoTemplate(
      t.name, t.image, t.environment, t.lobby, ServerTypeToProto(t.serverType), t.requiredPermissions,
      match t.dynamic
      case None => None
      case Some(d) => Some(DynamicToProto(d)))
  }

  /** `Template.fromProto`: priority and forced port take their defaults; an
      unrecognised server type makes the conversion throw. */
  function TemplateFromProto(p: ProtoTemplate): (r: Result<Template, ProtoError>)
    ensures r.Failure? <==> p.serverType.UNRECOGNIZED?
    ensures r.Failure? ==> r.error == UnknownServerType(p.serverType.number)
    ensures r.Success? ==> r.value.priority == 0 && r.value.forcedPort.None?
    ensures r.Success? ==> (ServerTypeToProto(r.value.serverType) == p.serverType
      && r.value.name == p.name && r.value.image == p.image && r.value.environment == p.environment
      && r.value.lobby == p.lobby && r.value.requiredPermissions == p.requiredPermissions
      && (r.value.dynamic.Some? <==> p.dynamic.Some?)
      && (r.value.dynamic.Some? ==> DynamicToProto(r.value.dynamic.value) == p.dynamic.value))
  {
    assert !p.serverType.UNRECOGNIZED? ==> ServerTypeToProto(ServerTypeFromProto(p.serverType).value) == p.serverType;
    var serverType :- ServerTypeFromProto(p.serverType);
    Success(Template(
      p.name, p.image, p.environment, p.lobby, serverType, p.requiredPermissions, 0,
      match p.dynamic
      case None => None
      case Some(d) => Some(DynamicFromProto(d)),
      None))
  }

  /** The round trip keeps every field the message carries, and resets
      priority to 0 and the forced port to none. */
  lemma TemplateRoundTrip(t: Template)
    ensures TemplateFromProto(TemplateToProto(t)) == Success(t.(priority := 0, forcedPort := None))
  {
    ServerTypeRoundTrip(t.serverType);
  }

  /** So the round trip is the identity exactly on templates whose priority
      and forced port are at their defaults. */
  lemma TemplateRoundTripLossless(t: Template)
    ensures TemplateFromProto(TemplateToProto(t)) == Success(t) <==> t.priority == 0 && t.forcedPort.None?
  {
    TemplateRoundTrip(t);
  }

  /** In particular a template built with the defaults survives unchanged. */
  lemma NewTemplateRoundTrip(name: string, image: string, environment: map<string, string>)
    ensures TemplateFromProto(TemplateToProto(NewTemplate(name, image, environment))) == Success(NewTemplate(name, image, environment))
  {
    TemplateRoundTrip(NewTemplate(name, image, environment));
  }

  /** The other direction: a message with a recognised server type comes back
      unchanged. */
  lemma ProtoTemplateRoundTrip(p: ProtoTemplate)
    requires !p.serverType.UNRECOGNIZED?
    ensures TemplateFromProto(p).Success?
    ensures TemplateToProto(TemplateFromProto(p).value) == p
  {
    ProtoServerTypeRoundTrip(p.serverType);
  }

  /** A message with an unrecognised server type cannot be read back. */
  lemma TemplateFromProtoRejectsUnknownType(p: ProtoTemplate)
    requires p.serverType.UNRECOGNIZED?
    ensures TemplateFromProto(p) == Failure(UnknownServerType(p.serverType.number))
  {
  }
}
