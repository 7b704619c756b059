/** Express middleware chains. A route lists its middleware; each one either
    calls `next()` and hands on the request state (only the principal in
    `res.locals.user` can change) or calls `next(err)`, after which nothing
    else in the chain runs and the error goes to the error responder. */
module Chain {
  import opened Types
  import Token
  import Guards

  /** What the auth middleware sees of a request. */
  datatype Request = Request(authorization: Option<string>, username: string, body: Body)

  /** The collaborators the core cannot see: the tokens that verify and the
      schema validator. */
  datatype Env = Env(verified: Token.Verified, validate: Guards.Validator)

  /** The middleware the users router mounts. */
  datatype Guard =
    | AuthenticateJWT
    | EnsureLoggedIn
    | EnsureAdmin
    | EnsureCorrectUserOrAdmin
    | ValidateAndEnsureAdmin(schema: Guards.Schema)
    | ValidateUserRegistration(schema: Guards.Schema)

  /** A guard's outcome as a chain step: `next()` hands on `p` unchanged,
      `next(err)` stops with `err`. */
  function AsStep(o: Outcome, p: Option<Principal>): (r: Result<Option<Principal>, Error>)
    ensures r.Success? <==> o.Pass?
    ensures r.Success? ==> r.value == p
    ensures r.Failure? ==> r.error == o.error
  {
    match o
    case Pass => Success(p)
    case Fail(e) => Failure(e)
  }

  /** One middleware run on principal `p`. */
  function Step(env: Env, g: Guard, req: Request, p: Option<Principal>): (r: Result<Option<Principal>, Error>)
    ensures g.AuthenticateJWT? ==> r.Success?
    ensures !g.AuthenticateJWT? && r.Success? ==> r.value == p
  {
    match g
    case AuthenticateJWT => Success(Token.AuthenticateJWT(env.verified, p, req.authorization))
    case EnsureLoggedIn => AsStep(Guards.EnsureLoggedIn(p), p)
    case EnsureAdmin => AsStep(Guards.EnsureAdmin(p), p)
    case EnsureCorrectUserOrAdmin => AsStep(Guards.EnsureCorrectUserOrAdmin(p, req.username), p)
    case ValidateAndEnsureAdmin(s) => AsStep(Guards.ValidateAndEnsureAdmin(env.validate, s, req.body, p), p)
    case ValidateUserRegistration(s) => AsStep(Guards.ValidateUserRegistration(env.validate, s, req.body), p)
  }

  /** A whole chain: the principal reaching the handler, or the first error.
      A chain without the codec hands the handler the principal it was
      given, and a chain can only fail at one of its guards. */
  function Run(env: Env, gs: seq<Guard>, req: Request, p: Option<Principal>): (r: Result<Option<Principal>, Error>)
    ensures (forall i :: 0 <= i < |gs| ==> !gs[i].AuthenticateJWT?) && r.Success? ==> r.value == p
    ensures r.Failure? ==> exists i :: 0 <= i < |gs| && !gs[i].AuthenticateJWT?
    decreases |gs|
  {
    if gs == [] then Success(p)
    else
      match Step(env, gs[0], req, p)
      case Failure(e) => Failure(e)
      case Success(q) =>
        var r := Run(env, gs[1..], req, q);
        assert r.Failure? ==> exists i :: 1 <= i < |gs| && !gs[i].AuthenticateJWT? by {
          if r.Failure? {
            var i :| 0 <= i < |gs[1..]| && !gs[1..][i].AuthenticateJWT?;
            assert gs[i + 1] == gs[1..][i];
          }
        }
        r
  }

  /** Running two chains back to back is running their concatenation. */
  lemma {:induction false} RunAppend(env: Env, a: seq<Guard>, b: seq<Guard>, req: Request, p: Option<Principal>)
    ensures Run(env, a + b, req, p)
            == match Run(env, a, req, p)
               case Failure(e) => Failure(e)
               case Success(q) => Run(env, b, req, q)
    decreases |a|
  {
    if a != [] {
      assert (a + b)[0] == a[0];
      assert (a + b)[1..] == a[1..] + b;
      match Step(env, a[0], req, p)
      case Failure(e) =>
      case Success(q) => RunAppend(env, a[1..], b, req, q);
    } else {
      assert a + b == b;
    }
  }

  /** Middleware `k` is where the chain stops: all before it passed and it
      fails with `e`. */
  ghost predicate FailsAt(env: Env, gs: seq<Guard>, req: Request, p: Option<Principal>, k: int, e: Error)
  {
    && 0 <= k < |gs|
    && Run(env, gs[..k], req, p).Success?
    && Step(env, gs[k], req, Run(env, gs[..k], req, p).value) == Failure(e)
  }

  /** First failure wins: a chain fails with `e` exactly when some guard
      fails with `e` after every guard before it passed. */
  lemma {:induction false} FirstFailureWins(env: Env, gs: seq<Guard>, req: Request, p: Option<Principal>, e: Error)
    ensures Run(env, gs, req, p) == Failure(e) <==> exists k :: FailsAt(env, gs, req, p, k, e)
    decreases |gs|
  {
    if Run(env, gs, req, p) == Failure(e) {
      match Step(env, gs[0], req, p)
      case Failure(e0) =>
        assert gs[..0] == [];
        assert FailsAt(env, gs, req, p, 0, e);
      case Success(q) =>
        FirstFailureWins(env, gs[1..], req, q, e);
        var k :| FailsAt(env, gs[1..], req, q, k, e);
        RunAppend(env, [gs[0]], gs[1..][..k], req, p);
        assert [gs[0]] + gs[1..][..k] == gs[..k + 1];
        assert [gs[0]][1..] == [];
        assert gs[1..][k] == gs[k + 1];
        assert FailsAt(env, gs, req, p, k + 1, e);
    }
    if k :| FailsAt(env, gs, req, p, k, e) {
      RunAppend(env, gs[..k], gs[k..], req, p);
      assert gs[..k] + gs[k..] == gs;
      assert gs[k..][0] == gs[k];
    }
  }

  /** The handler is reached exactly when every guard passes on the
      principal the guards before it produced. */
  lemma ReachedIffAllPass(env: Env, gs: seq<Guard>, req: Request, p: Option<Principal>)
    ensures Run(env, gs, req, p).Success? <==>
            forall k :: 0 <= k < |gs| ==>
              Run(env, gs[..k], req, p).Success? && Step(env, gs[k], req, Run(env, gs[..k], req, p).value).Success?
  {
    if Run(env, gs, req, p).Success? {
      forall k | 0 <= k < |gs|
        ensures Run(env, gs[..k], req, p).Success? && Step(env, gs[k], req, Run(env, gs[..k], req, p).value).Success?
      {
        RunAppend(env, gs[..k], gs[k..], req, p);
        assert gs[..k] + gs[k..] == gs;
        assert gs[k..][0] == gs[k];
      }
    } else {
      var e := Run(env, gs, req, p).error;
      FirstFailureWins(env, gs, req, p, e);
    }
  }
}
