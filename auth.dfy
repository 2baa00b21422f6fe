/**
 * The three route guards of src/lib/auth.js. Each either calls `next()` or ends the request
 * with a redirect; `isClient` also flashes an error first.
 */
module Auth {
  import opened JsValues
  import opened Schema

  /** What passport leaves on the request: `req.user`, set once the session's id deserialized. */
  datatype Request = Request(user: Option<User>)

  /** `req.isAuthenticated()`: passport reports whether `req.user` is set. */
  predicate IsAuthenticated(req: Request) {
    req.user.Some?
  }

  /** A `req.flash(kind, message)` notice shown on the next page. */
  datatype Flash = Flash(kind: string, message: string)

  /** The guard either calls `next()` or redirects, possibly after flashing a notice. */
  datatype GuardResult = Next | Redirect(location: string, flash: Option<Flash>)

  function IsLoggedIn(req: Request): GuardResult {
    if IsAuthenticated(req) then Next else Redirect("/signin", None)
  }

  function IsNotLoggedIn(req: Request): GuardResult {
    if !IsAuthenticated(req) then Next else Redirect("/profile", None)
  }

  function IsClient(req: Request): GuardResult {
    if IsAuthenticated(req) && IsClientRole(req.user.value) then Next
    else Redirect("/home", Some(Flash("error", "Unauthorized access")))
  }

  /** When each guard lets the request through, and where it sends it otherwise. */
  lemma GuardDecisions(req: Request)
    ensures IsLoggedIn(req) == Next <==> IsAuthenticated(req)
    ensures IsLoggedIn(req) != Next ==> IsLoggedIn(req) == Redirect("/signin", None)
    ensures IsNotLoggedIn(req) == Next <==> !IsAuthenticated(req)
    ensures IsNotLoggedIn(req) != Next ==> IsNotLoggedIn(req) == Redirect("/profile", None)
    ensures IsClient(req) == Next <==> IsAuthenticated(req) && req.user.value.role == "client"
    ensures IsClient(req) != Next ==> IsClient(req) == Redirect("/home", Some(Flash("error", "Unauthorized access")))
  {
  }

  /** Every request passes exactly one of `isLoggedIn` and `isNotLoggedIn`. */
  lemma ExactlyOneSessionGuardPasses(req: Request)
    ensures (IsLoggedIn(req) == Next) != (IsNotLoggedIn(req) == Next)
  {
  }

  /** A request that passes `isClient` also passes `isLoggedIn`, but not `isNotLoggedIn`. */
  lemma ClientGuardImpliesLoggedIn(req: Request)
    requires IsClient(req) == Next
    ensures IsLoggedIn(req) == Next
    ensures IsNotLoggedIn(req) != Next
  {
  }

  /** A logged-in barber passes `isLoggedIn` and is turned away by `isClient`. */
  lemma BarberFailsClientGuard(u: User)
    requires IsBarberRole(u)
    ensures IsLoggedIn(Request(Some(u))) == Next
    ensures IsClient(Request(Some(u))).Redirect?
  {
  }
}
