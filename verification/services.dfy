/** The admission checks and the result mapping of the two gRPC server
    services: master/server/ServerService.kt and its variant
    master/backend/services/ServerService.kt, which lacks the check for a
    second server of a static template. Both drive the newer orchestrator and
    look templates up in the validated registry. */
module Services {
  import opened Wrappers
  import opened Model
  import opened RedisWrapper
  import opened TemplateManager
  import opened Orchestrator

  /** A creation request: the template id, the host UUID of the private-game
      block when the request carries one, and the extra data. */
  datatype CreateRequest = CreateRequest(templateId: string, privateGameHost: Option<string>, extraData: map<string, string>)

  /** An update request: the server id and the same two data fields. */
  datatype UpdateRequest = UpdateRequest(id: string, privateGameHost: Option<string>, extraData: map<string, string>)

  /** The status a handler fails with: NOT_FOUND, ALREADY_EXISTS, or an
      exception `createServer` threw, which reaches the caller unmapped. */
  datatype ServiceError = NotFound | AlreadyExists | Threw(error: CreateError)

  datatype Answer<T> = Answer(manager: Manager, result: Result<T, ServiceError>)

  /** The `ServerData` a request describes: a private game exactly when the
      request has one, and always the request's extra data. */
  function RequestData(privateGameHost: Option<string>, extraData: map<string, string>): (d: ServerData)
    ensures d.privateGame.Some? <==> privateGameHost.Some?
    ensures d.privateGame.Some? ==> d.privateGame.value.host == privateGameHost.value
    ensures d.extraData == extraData
  {
    ServerData(if privateGameHost.Some? then Some(PrivateGame(privateGameHost.value)) else None, extraData)
  }

  /** Line 30: some stored server was made from a template of this name. */
  predicate HasServerOf(m: Manager, t: Template) {
    exists s :: s in GetAllServers(m.store) && s.template.name == t.name
  }

  /** The creation shared by both variants once admission has passed: the
      response id is the id `createServer` returned. */
  function Admit(m: Manager, env: Env, t: Template, req: CreateRequest): (a: Answer<string>)
    ensures a.manager == CreateServer(m, env, t, RequestData(req.privateGameHost, req.extraData)).manager
    ensures a.result.Success? <==> CreateServer(m, env, t, RequestData(req.privateGameHost, req.extraData)).result.Success?
    ensures a.result.Success? ==> a.result.value == CreateServer(m, env, t, RequestData(req.privateGameHost, req.extraData)).result.value
    ensures a.result.Failure? ==> a.result.error == Threw(CreateServer(m, env, t, RequestData(req.privateGameHost, req.extraData)).result.error)
  {
    var c := CreateServer(m, env, t, RequestData(req.privateGameHost, req.extraData));
    match c.result
    case Success(id) => Answer(c.manager, Success(id))
    case Failure(e) => Answer(c.manager, Failure(Threw(e)))
  }

  /** master/server/ServerService.kt `createServer` (lines 20-53). */
  function CreateServerChecked(m: Manager, env: Env, templates: Templates, req: CreateRequest): (a: Answer<string>)
    ensures a.result == Failure(NotFound) <==> GetTemplate(templates, req.templateId).None?
    ensures a.result == Failure(AlreadyExists) <==>
      GetTemplate(templates, req.templateId).Some? && IsStatic(GetTemplate(templates, req.templateId).value)
      && HasServerOf(m, GetTemplate(templates, req.templateId).value)
    ensures a.result == Failure(NotFound) || a.result == Failure(AlreadyExists) ==> a.manager == m
    ensures (GetTemplate(templates, req.templateId).Some?
      && !(IsStatic(GetTemplate(templates, req.templateId).value) && HasServerOf(m, GetTemplate(templates, req.templateId).value))) ==>
      a == Admit(m, env, GetTemplate(templates, req.templateId).value, req)
  {
    match GetTemplate(templates, req.templateId)
    case None => Answer(m, Failure(NotFound))
    case Some(t) =>
      if IsStatic(t) && HasServerOf(m, t) then Answer(m, Failure(AlreadyExists))
      else Admit(m, env, t, req)
  }

  /** master/backend/services/ServerService.kt `createServer` (lines 16-45):
      only the template lookup guards the call. */
  function CreateServerUnchecked(m: Manager, env: Env, templates: Templates, req: CreateRequest): (a: Answer<string>)
    ensures a.result == Failure(NotFound) <==> GetTemplate(templates, req.templateId).None?
    ensures a.result != Failure(AlreadyExists)
    ensures a.result == Failure(NotFound) ==> a.manager == m
    ensures GetTemplate(templates, req.templateId).Some? ==>
      a == Admit(m, env, GetTemplate(templates, req.templateId).value, req)
  {
    match GetTemplate(templates, req.templateId)
    case None => Answer(m, Failure(NotFound))
    case Some(t) => Admit(m, env, t, req)
  }

  /** The two variants differ only where the first rejects a second server of
      a static template. */
  lemma VariantsAgreeOtherwise(m: Manager, env: Env, templates: Templates, req: CreateRequest)
    ensures CreateServerChecked(m, env, templates, req).result != Failure(AlreadyExists) ==>
      CreateServerChecked(m, env, templates, req) == CreateServerUnchecked(m, env, templates, req)
    ensures CreateServerChecked(m, env, templates, req).result == Failure(AlreadyExists) ==>
      CreateServerUnchecked(m, env, templates, req).result != Failure(AlreadyExists)
  {
  }

  /** With a fresh id and a free port, a dynamic template is always admitted,
      whatever is stored: the check never rejects dynamic templates. */
  lemma DynamicAlwaysAdmitted(m: Manager, env: Env, templates: Templates, req: CreateRequest)
    requires ValidManager(m)
    requires GetTemplate(templates, req.templateId).Some? && !IsStatic(GetTemplate(templates, req.templateId).value)
    requires forall s :: s in GetAllServers(m.store) ==> s.internalId != env.uuid(m.minted)
    requires env.freePort(m.minted).Some?
    ensures CreateServerChecked(m, env, templates, req).result == Success(env.uuid(m.minted))
  {
    var t := GetTemplate(templates, req.templateId).value;
    FreshIdNeverTaken(m, env, t, RequestData(req.privateGameHost, req.extraData));
  }

  /** `updateServer` (lines 55-76 and 47-68 of the variant): the manager's
      answer is ignored, so the call always succeeds. */
  function UpdateServerCall(m: Manager, req: UpdateRequest): (a: Answer<()>)
    ensures a.result == Success(())
    ensures a.manager == m.(store := a.manager.store)
    ensures GetServerByInternal(m.store, req.id).None? ==> a.manager == m
    ensures GetServerByInternal(m.store, req.id).Some? ==>
      GetServerByInternal(a.manager.store, GetServerByInternal(m.store, req.id).value.internalId)
        == Some(GetServerByInternal(m.store, req.id).value.(serverData := RequestData(req.privateGameHost, req.extraData)))
  {
    Answer(UpdateServer(m, req.id, RequestData(req.privateGameHost, req.extraData)).0, Success(()))
  }

  /** `restartServer` (lines 78-86 and 70-78): `false` becomes NOT_FOUND. */
  function RestartServerCall(m: Manager, id: string): (a: Answer<()>)
    ensures a.result == Failure(NotFound) <==> GetServerByInternal(m.store, id).None?
    ensures a.result.Failure? ==> a.result.error == NotFound && a.manager == m
    ensures a.result.Success? ==> (a.manager.requests ==
      m.requests + [StopInBackground(id, GetServerByInternal(m.store, id).value, ThenRecreate)])
  {
    var r := RestartServer(m, id);
    if r.1 then Answer(r.0, Success(())) else Answer(r.0, Failure(NotFound))
  }

  /** `stopServer` (lines 88-96 and 80-88): `false` becomes NOT_FOUND. */
  function StopServerCall(m: Manager, id: string): (a: Answer<()>)
    ensures a.result == Failure(NotFound) <==> GetServerByInternal(m.store, id).None?
    ensures a.result.Failure? ==> a.result.error == NotFound && a.manager == m
    ensures a.result.Success? ==> (a.manager.requests ==
      m.requests + [StopInBackground(id, GetServerByInternal(m.store, id).value, ThenRemove)])
  {
    var r := StopServer(m, id);
    if r.1 then Answer(r.0, Success(())) else Answer(r.0, Failure(NotFound))
  }

  /** An update of an unknown id still answers success, while stop and
      restart of the same id answer NOT_FOUND. */
  lemma UnknownIdAnswers(m: Manager, id: string, privateGameHost: Option<string>, extraData: map<string, string>)
    requires GetServerByInternal(m.store, id).None?
    ensures UpdateServerCall(m, UpdateRequest(id, privateGameHost, extraData)) == Answer(m, Success(()))
    ensures StopServerCall(m, id) == Answer(m, Failure(NotFound))
    ensures RestartServerCall(m, id) == Answer(m, Failure(NotFound))
  {
  }
}
