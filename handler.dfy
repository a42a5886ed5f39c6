/** The gRPC handlers of internal/transport/grpchandler/handler.go: each
    forwards a request to the service and turns the service's error into a
    status, and AddDataLoginPass first reads the caller's login from the
    outgoing metadata the access gate attached.

    The service is foreign to this file; a handler takes the service's answer
    (or, where the handler may not call it, the service itself) as a value. */
module Handler {
  import opened Wrappers
  import opened Strings
  import opened Errors
  import opened Grpc
  import Entity
  import Token
  import Interceptor

  /** the generated empty response messages */
  datatype Empty = Empty

  /** `(*Handler).RegisterUser`, given what the service's RegisterUser returned. */
  function RegisterUser(registered: Result<Bytes, Error>): (r: Result<Empty, Status>)
    ensures r.Ok? <==> registered.Ok?
    ensures registered.Err? && Is(registered.error, ServerAlreadyExists) ==> r == Err(Named(AlreadyExists))
    ensures registered.Err? && !Is(registered.error, ServerAlreadyExists) ==> r == Err(Named(Internal))
  {
    match registered
    case Ok(_) => Ok(Empty)
    case Err(e) => if Is(e, ServerAlreadyExists) then Err(Named(AlreadyExists)) else Err(Named(Internal))
  }

  /** `(*Handler).AuthUser`, given what the service's AuthUser returned. */
  function AuthUser(issued: Result<Bytes, Error>): (r: Result<Bytes, Status>)
    ensures r.Ok? <==> issued.Ok?
    ensures r.Ok? ==> r.value == issued.value
    ensures issued.Err? && Is(issued.error, ServerUsersPasswordNotMatch) ==> r == Err(Named(PermissionDenied))
    ensures issued.Err? && !Is(issued.error, ServerUsersPasswordNotMatch) && Is(issued.error, ServerNotFound) ==>
              r == Err(Named(NotFound))
    ensures issued.Err? && !Is(issued.error, ServerUsersPasswordNotMatch) && !Is(issued.error, ServerNotFound) ==>
              r == Err(Named(Internal))
  {
    match issued
    case Ok(jwt) => Ok(jwt)
    case Err(e) =>
      if Is(e, ServerUsersPasswordNotMatch) then Err(Named(PermissionDenied))
      else if Is(e, ServerNotFound) then Err(Named(NotFound))
      else Err(Named(Internal))
  }

  /** `outgoingMetaData(ctx, key)`: all values of `key` in the outgoing
      metadata; an error when there is no outgoing metadata or no value. */
  function OutgoingMetaData(ctx: Context, key: string): (r: Result<seq<Bytes>, Error>)
    ensures r.Ok? <==> ctx.outgoing.Some? && Get(ctx.outgoing.value, key) != []
    ensures r.Ok? ==> r.value == Get(ctx.outgoing.value, key)
    ensures r.Err? ==> forall s :: !Is(r.error, s)
  {
    if ctx.outgoing.None? then Err(Opaque("missing metadata"))
    else if Get(ctx.outgoing.value, key) == [] then Err(Opaque(key + " not supplied"))
    else Ok(Get(ctx.outgoing.value, key))
  }

  /** `userLogin(ctx)`: the first `User-Login` value of the outgoing metadata. */
  function UserLogin(ctx: Context): (r: Result<Bytes, Error>)
    ensures r.Ok? <==> ctx.outgoing.Some? && Get(ctx.outgoing.value, Entity.UserLoginHeaderName) != []
    ensures r.Ok? ==> r.value == Get(ctx.outgoing.value, Entity.UserLoginHeaderName)[0]
  {
    match OutgoingMetaData(ctx, Entity.UserLoginHeaderName)
    case Err(e) => Err(Wrap("failed to get metadata", e))
    case Ok(values) => Ok(values[0])
  }

  /** `server.Data` as this handler builds it: a title and the JSON payload.
      The server package's own `Data` declares no payload field. */
  datatype Data = Data(title: Bytes, payload: Bytes)

  datatype AddDataLoginPassRequest = AddDataLoginPassRequest(title: Bytes, login: Bytes, pass: Bytes)

  /** What the handler hands the service (owner login and record), or the
      status it answers with before calling it. `marshal` is `json.Marshal`
      of the `{login, password}` payload. */
  function ServiceCall(ctx: Context, req: AddDataLoginPassRequest, marshal: (Bytes, Bytes) -> Result<Bytes, Error>)
    : (r: Result<(Bytes, Data), Status>)
    ensures var owner, payload := UserLogin(ctx), marshal(req.login, req.pass);
            && (owner.Err? ==> r == Err(Named(InvalidArgument)))
            && (owner.Ok? && payload.Err? ==> r == Err(Named(Internal)))
            && (owner.Ok? && payload.Ok? ==> r == Ok((owner.value, Data(req.title, payload.value))))
  {
    match UserLogin(ctx)
    case Err(_) => Err(Named(InvalidArgument))
    case Ok(owner) =>
      match marshal(req.login, req.pass)
      case Err(_) => Err(Named(Internal))
      case Ok(payload) => Ok((owner, Data(req.title, payload)))
  }

  /** `(*Handler).AddDataLoginPass`, where `service` is the service's
      AddDataLoginPass (its error, or `None` on success). */
  function AddDataLoginPass(ctx: Context, req: AddDataLoginPassRequest, marshal: (Bytes, Bytes) -> Result<Bytes, Error>,
                            service: (Bytes, Data) -> Option<Error>): (r: Result<Empty, Status>)
    ensures var call := ServiceCall(ctx, req, marshal);
            && (call.Err? ==> r == Err(call.error))
            && (call.Ok? ==>
                  var answer := service(call.value.0, call.value.1);
                  && (r.Ok? <==> answer.None?)
                  && (answer.Some? && Is(answer.value, ServerUserNotFound) ==> r == Err(Named(PermissionDenied)))
                  && (answer.Some? && !Is(answer.value, ServerUserNotFound) ==> r == Err(Named(Internal))))
    ensures r.Err? ==> r.error.message == CodeName(r.error.code)
  {
    match ServiceCall(ctx, req, marshal)
    case Err(st) => Err(st)
    case Ok((owner, data)) =>
      match service(owner, data)
      case None => Ok(Empty)
      case Some(e) => if Is(e, ServerUserNotFound) then Err(Named(PermissionDenied)) else Err(Named(Internal))
  }

  /** Without a `User-Login` value the service is never consulted: any two
      services give the same InvalidArgument answer. */
  lemma MissingLoginSkipsService(ctx: Context, req: AddDataLoginPassRequest, marshal: (Bytes, Bytes) -> Result<Bytes, Error>,
                                 s1: (Bytes, Data) -> Option<Error>, s2: (Bytes, Data) -> Option<Error>)
    requires ctx.outgoing.None? || Get(ctx.outgoing.value, Entity.UserLoginHeaderName) == []
    ensures AddDataLoginPass(ctx, req, marshal, s1) == AddDataLoginPass(ctx, req, marshal, s2) == Err(Named(InvalidArgument))
  {
  }

  /** Every status the three handlers answer with carries its code's name as message. */
  lemma StatusMessagesAreCodeNames(registered: Result<Bytes, Error>, issued: Result<Bytes, Error>)
    ensures RegisterUser(registered).Err? ==> RegisterUser(registered).error.message == CodeName(RegisterUser(registered).error.code)
    ensures AuthUser(issued).Err? ==> AuthUser(issued).error.message == CodeName(AuthUser(issued).error.code)
  {
  }

  /** The gate and the handler agree on the header: a call the gate admits
      on a context without outgoing metadata (as the server receives every
      call) reaches the handler with the token's login as `userLogin`. */
  lemma IssuedLoginReachesHandler(t: Token.Token, lib: Token.Jwt, login: Bytes, issuedAt: int, now: int,
                                  fullMethod: string, ctx: Context)
    requires Token.Laws(lib) && Interceptor.WellFormed(ctx) && ctx.outgoing.None?
    requires Token.BuildNewJWTToken(t, lib, login, issuedAt).Ok? && login != []
    requires now < Token.IssuedClaims(t, login, issuedAt).expiresAt * Token.Second
    requires !Interceptor.IsOpenMethod(fullMethod)
    requires ctx.incoming.Some? && Entity.AuthTokenHeader in ctx.incoming.value
    requires Interceptor.AuthToken(ctx) == Token.BuildNewJWTToken(t, lib, login, issuedAt).value
    ensures Interceptor.CheckAccess(t, lib, now, fullMethod, ctx).Forward?
    ensures UserLogin(Interceptor.CheckAccess(t, lib, now, fullMethod, ctx).ctx) == Ok(login)
  {
    Interceptor.IssuedTokenAdmitted(t, lib, login, issuedAt, now, fullMethod, ctx);
  }
}
