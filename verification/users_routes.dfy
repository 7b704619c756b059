/** The users router: which middleware chain guards each route, and the
    parts of the handlers that decide what reaches the user model (the
    admin flag forced off on self-registration, validation before update).
    A request is described by the principal already on `res.locals.user`
    when the router is entered, and its header, path username and body. */
module UsersRoutes {
  import opened Types
  import Token
  import Guards
  import opened Chain

  datatype Route =
    | CreateUser       // POST /
    | Register         // POST /register
    | ListUsers        // GET /
    | GetUser          // GET /:username
    | UpdateUser       // PATCH /:username
    | DeleteUser       // DELETE /:username
    | CreateArticle    // POST /:username/summarized-articles
    | ListArticles     // GET /:username/summarized-articles
    | UpdateArticle    // PUT /:username/summarized-articles/:articleTitle
    | DeleteArticle    // DELETE /:username/summarized-articles/:articleTitle

  predicate IsArticleRoute(route: Route) {
    route.CreateArticle? || route.ListArticles? || route.UpdateArticle? || route.DeleteArticle?
  }

  predicate IsUserRoute(route: Route) {
    route.GetUser? || route.UpdateUser? || route.DeleteUser?
  }

  /** The middleware each route declares before its handler. Only the
      summarized-article routes declare none; every other chain ends in a
      guard that can refuse the request, and the codec, where mounted,
      runs first. */
  function GuardChain(route: Route): (chain: seq<Guard>)
    ensures chain == [] <==> IsArticleRoute(route)
    ensures chain != [] ==> !chain[|chain| - 1].AuthenticateJWT?
    ensures forall i :: 0 < i < |chain| ==> !chain[i].AuthenticateJWT?
    ensures IsUserRoute(route) ==> chain[|chain| - 1] == EnsureCorrectUserOrAdmin
  {
    match route
    case CreateUser => [AuthenticateJWT, ValidateAndEnsureAdmin(Guards.UserNew)]
    case Register => [ValidateUserRegistration(Guards.UserNew)]
    case ListUsers => [EnsureAdmin]
    case GetUser => [AuthenticateJWT, EnsureCorrectUserOrAdmin]
    case UpdateUser => [AuthenticateJWT, EnsureCorrectUserOrAdmin]
    case DeleteUser => [AuthenticateJWT, EnsureCorrectUserOrAdmin]
    case CreateArticle => []
    case ListArticles => []
    case UpdateArticle => []
    case DeleteArticle => []
  }

  /** The first model call a handler makes. */
  datatype Action =
    | RegisterUser(record: Body)
    | FindAllUsers
    | GetUserNamed(username: string)
    | UpdateUserNamed(username: string, data: Body)
    | RemoveUserNamed(username: string)
    | SummarizedArticles(route: Route)

  /** `{ ...req.body, isAdmin: false }`. */
  function RegistrationRecord(body: Body): (record: Body)
    ensures record.Keys == body.Keys + {"isAdmin"}
    ensures record["isAdmin"] == JBool(false)
    ensures forall k :: k in body && k != "isAdmin" ==> record[k] == body[k]
  {
    body["isAdmin" := JBool(false)]
  }

  /** The handler, up to its first model call. Only PATCH can still fail
      here: its body is checked against the update schema first. */
  function Handler(env: Env, route: Route, req: Request): (r: Result<Action, Error>)
    ensures r.Failure? ==> route.UpdateUser? && r.error == BadRequest(Messages(env.validate(req.body, Guards.UserUpdate)))
    ensures route.UpdateUser? ==> (r.Success? <==> env.validate(req.body, Guards.UserUpdate) == [])
    ensures IsUserRoute(route) && r.Success? ==>
            r.value in {GetUserNamed(req.username), UpdateUserNamed(req.username, req.body), RemoveUserNamed(req.username)}
    ensures route.Register? ==> r == Success(RegisterUser(RegistrationRecord(req.body)))
    ensures IsArticleRoute(route) ==> r == Success(SummarizedArticles(route))
  {
    match route
    case CreateUser => Success(RegisterUser(req.body))
    case Register => Success(RegisterUser(RegistrationRecord(req.body)))
    case ListUsers => Success(FindAllUsers)
    case GetUser => Success(GetUserNamed(req.username))
    case UpdateUser =>
      var errs := env.validate(req.body, Guards.UserUpdate);
      if errs != [] then Failure(BadRequest(Messages(errs)))
      else Success(UpdateUserNamed(req.username, req.body))
    case DeleteUser => Success(RemoveUserNamed(req.username))
    case _ => Success(SummarizedArticles(route))
  }

  /** A request on `route` with principal `p` on entry: the chain's first
      error, or whatever the handler does. */
  function Dispatch(env: Env, route: Route, req: Request, p: Option<Principal>): (r: Result<Action, Error>)
    ensures Run(env, GuardChain(route), req, p).Failure? ==> r == Failure(Run(env, GuardChain(route), req, p).error)
    ensures r.Success? ==> Run(env, GuardChain(route), req, p).Success?
    ensures Run(env, GuardChain(route), req, p).Success? ==> r == Handler(env, route, req)
  {
    match Run(env, GuardChain(route), req, p)
    case Failure(e) => Failure(e)
    case Success(_) => Handler(env, route, req)
  }

  /** The principal after the route's `authenticateJWT`. */
  function Authenticated(env: Env, req: Request, p: Option<Principal>): (u: Option<Principal>)
    ensures u != p ==> u.Some? && u.value in env.verified.Values
  {
    Token.AuthenticateJWT(env.verified, p, req.authorization)
  }

  /** POST /: a body that breaks the new-user schema is a `BadRequest` with
      all its messages, whoever sends it and whatever token they carry;
      otherwise only an authenticated admin gets through, and the body is
      registered as sent, admin flag included. */
  lemma CreateUserGuards(env: Env, req: Request, p: Option<Principal>)
    ensures env.validate(req.body, Guards.UserNew) != [] ==>
            Dispatch(env, CreateUser, req, p) == Failure(BadRequest(Messages(env.validate(req.body, Guards.UserNew))))
    ensures Dispatch(env, CreateUser, req, p).Success? <==>
            env.validate(req.body, Guards.UserNew) == []
            && Authenticated(env, req, p).Some? && Authenticated(env, req, p).value.isAdmin
    ensures Dispatch(env, CreateUser, req, p).Success? ==> Dispatch(env, CreateUser, req, p).value == RegisterUser(req.body)
  {
    var gs := GuardChain(CreateUser);
    assert gs[1..] == [ValidateAndEnsureAdmin(Guards.UserNew)];
  }

  /** POST /register: the outcome never depends on the principal or the
      header; a valid body without a truthy `isAdmin` gets through, and the
      record registered is the body with `isAdmin` forced to `false`. */
  lemma RegisterGuards(env: Env, req: Request, p: Option<Principal>, q: Option<Principal>)
    ensures Dispatch(env, Register, req, p) == Dispatch(env, Register, req.(authorization := None), q)
    ensures Dispatch(env, Register, req, p).Success? <==>
            env.validate(req.body, Guards.UserNew) == [] && !Truthy(Prop(req.body, "isAdmin"))
    ensures env.validate(req.body, Guards.UserNew) == [] && Truthy(Prop(req.body, "isAdmin")) ==>
            Dispatch(env, Register, req, p) == Failure(BadRequest(Text(Guards.AdminFlagRejected)))
    ensures Dispatch(env, Register, req, p).Success? ==>
            && Dispatch(env, Register, req, p).value.RegisterUser?
            && Dispatch(env, Register, req, p).value.record["isAdmin"] == JBool(false)
  {
  }

  /** GET /: no codec on this route, so only an admin principal already
      present on entry gets the user list. */
  lemma ListUsersGuards(env: Env, req: Request, p: Option<Principal>)
    ensures Dispatch(env, ListUsers, req, p).Success? <==> p.Some? && p.value.isAdmin
    ensures Dispatch(env, ListUsers, req, p).Failure? ==>
            Dispatch(env, ListUsers, req, p).error == Unauthorized(Text("Must be an admin"))
  {
  }

  /** GET, PATCH and DELETE on /:username: after the codec, an anonymous
      caller is told to log in, a caller who is neither an admin nor the
      named user is refused, and everyone else reaches the handler. */
  lemma UserRoutesGuards(env: Env, route: Route, req: Request, p: Option<Principal>)
    requires IsUserRoute(route)
    ensures Run(env, GuardChain(route), req, p).Success? <==>
            var u := Authenticated(env, req, p);
            u.Some? && (u.value.isAdmin || u.value.username == req.username)
    ensures Authenticated(env, req, p).None? ==>
            Dispatch(env, route, req, p) == Failure(Unauthorized(Text("Must be logged in")))
    ensures var u := Authenticated(env, req, p);
            u.Some? && !u.value.isAdmin && u.value.username != req.username ==>
            Dispatch(env, route, req, p) == Failure(Unauthorized(Text("Unauthorized")))
    ensures !route.UpdateUser? ==>
            (Dispatch(env, route, req, p).Success? <==>
             var u := Authenticated(env, req, p);
             u.Some? && (u.value.isAdmin || u.value.username == req.username))
  {
    var gs := GuardChain(route);
    assert gs[1..] == [EnsureCorrectUserOrAdmin];
  }

  /** PATCH /:username: the update call is reached only with a body valid
      for the update schema, and then carries the path username and the
      body unchanged; an authorised caller with an invalid body gets a
      `BadRequest` with every message. */
  lemma UpdateValidatesFirst(env: Env, req: Request, p: Option<Principal>)
    ensures Dispatch(env, UpdateUser, req, p).Success? ==>
            && env.validate(req.body, Guards.UserUpdate) == []
            && Dispatch(env, UpdateUser, req, p).value == UpdateUserNamed(req.username, req.body)
    ensures Run(env, GuardChain(UpdateUser), req, p).Success? && env.validate(req.body, Guards.UserUpdate) != [] ==>
            Dispatch(env, UpdateUser, req, p) == Failure(BadRequest(Messages(env.validate(req.body, Guards.UserUpdate))))
  {
  }

  /** The summarized-article routes declare no middleware: every request
      reaches its handler, anonymous or not. */
  lemma ArticleRoutesUnguarded(env: Env, route: Route, req: Request, p: Option<Principal>)
    requires IsArticleRoute(route)
    ensures Dispatch(env, route, req, p) == Success(SummarizedArticles(route))
  {
  }
}
