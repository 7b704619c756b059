/** The authorization predicates of the auth middleware. Each guard reads
    the principal stored by `authenticateJWT` (and, where relevant, the
    path username or the request body) and either passes control on or
    fails with a classified error. Schema validation is a parameter
    `validate`; it returns the `stack` text of every violation, and an
    empty list means the body is valid. */
module Guards {
  import opened Types

  /** The two JSON schemas the users router validates against. */
  datatype Schema = UserNew | UserUpdate

  type Validator = (Body, Schema) -> seq<string>

  /** `ensureLoggedIn`: any principal at all is enough. */
  function EnsureLoggedIn(p: Option<Principal>): (r: Outcome)
    ensures r.Pass? <==> p.Some?
    ensures r.Fail? ==> r.error == Unauthorized(Default)
  {
    if p.None? then Fail(Unauthorized(Default)) else Pass
  }

  /** `ensureAdmin`: a principal whose admin flag is set. */
  function EnsureAdmin(p: Option<Principal>): (r: Outcome)
    ensures r.Pass? <==> p.Some? && p.value.isAdmin
    ensures r.Fail? ==> r.error == Unauthorized(Text("Must be an admin"))
  {
    if p.None? || !p.value.isAdmin then Fail(Unauthorized(Text("Must be an admin"))) else Pass
  }

  /** `ensureCorrectUserOrAdmin`: an admin, or the user named in the path.
      An anonymous caller and a caller logged in as somebody else are told
      apart by the message. */
  function EnsureCorrectUserOrAdmin(p: Option<Principal>, target: string): (r: Outcome)
    ensures r.Pass? <==> p.Some? && (p.value.isAdmin || p.value.username == target)
    ensures p.None? ==> r == Fail(Unauthorized(Text("Must be logged in")))
    ensures p.Some? && r.Fail? ==> r.error == Unauthorized(Text("Unauthorized"))
  {
    if p.None? then Fail(Unauthorized(Text("Must be logged in")))
    else if !(p.value.isAdmin || p.value.username == target) then Fail(Unauthorized(Text("Unauthorized")))
    else Pass
  }

  /** `validateAndEnsureAdmin(schema)`: validation runs first and its
      `BadRequest`, carrying every violation, wins over the admin check. */
  function ValidateAndEnsureAdmin(validate: Validator, schema: Schema, body: Body, p: Option<Principal>): (r: Outcome)
    ensures validate(body, schema) != [] ==> r == Fail(BadRequest(Messages(validate(body, schema))))
    ensures r.Pass? <==> validate(body, schema) == [] && p.Some? && p.value.isAdmin
    ensures validate(body, schema) == [] && r.Fail? ==> r.error == Unauthorized(Text("Must be an admin"))
  {
    var errs := validate(body, schema);
    if errs != [] then Fail(BadRequest(Messages(errs)))
    else if p.None? || !p.value.isAdmin then Fail(Unauthorized(Text("Must be an admin")))
    else Pass
  }

  /** The message `validateUserRegistration` reports for a body that tries
      to grant itself admin rights. */
  const AdminFlagRejected := "Cannot set isAdmin flag during registration"

  /** `validateUserRegistration(schema)`: never looks at the principal.
      Schema violations first, then a truthy `isAdmin` in the body. */
  function ValidateUserRegistration(validate: Validator, schema: Schema, body: Body): (r: Outcome)
    ensures validate(body, schema) != [] ==> r == Fail(BadRequest(Messages(validate(body, schema))))
    ensures validate(body, schema) == [] && Truthy(Prop(body, "isAdmin"))
            ==> r == Fail(BadRequest(Text(AdminFlagRejected)))
    ensures r.Pass? <==> validate(body, schema) == [] && !Truthy(Prop(body, "isAdmin"))
    ensures r.Fail? ==> r.error.BadRequest?
  {
    var errs := validate(body, schema);
    if errs != [] then Fail(BadRequest(Messages(errs)))
    else if Truthy(Prop(body, "isAdmin")) then Fail(BadRequest(Text(AdminFlagRejected)))
    else Pass
  }

  /** The guards form a chain of strength: admin implies self-or-admin for
      every target, which implies logged in; neither step reverses. */
  lemma GuardStrength(p: Option<Principal>, target: string)
    ensures EnsureAdmin(p).Pass? ==> EnsureCorrectUserOrAdmin(p, target).Pass?
    ensures EnsureCorrectUserOrAdmin(p, target).Pass? ==> EnsureLoggedIn(p).Pass?
    ensures var self := Some(Principal(target, false));
            EnsureCorrectUserOrAdmin(self, target).Pass? && EnsureAdmin(self).Fail?
    ensures var other := Some(Principal(target + "x", false));
            EnsureLoggedIn(other).Pass? && EnsureCorrectUserOrAdmin(other, target).Fail?
  {
    var other := target + "x";
    assert |other| != |target|;
  }

  /** The admin-only creation guard is exactly validation followed by
      `ensureAdmin`: once the body is valid the two agree on every
      principal, so the principal only matters after validation. */
  lemma ValidateThenAdmin(validate: Validator, schema: Schema, body: Body, p: Option<Principal>)
    ensures validate(body, schema) == [] ==> ValidateAndEnsureAdmin(validate, schema, body, p) == EnsureAdmin(p)
    ensures validate(body, schema) != [] ==>
            forall q: Option<Principal> :: ValidateAndEnsureAdmin(validate, schema, body, q) == ValidateAndEnsureAdmin(validate, schema, body, p)
  {
  }
}
