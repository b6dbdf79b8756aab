/**
 * Authentication middleware: the bearer token is read from the `Authorization`
 * header and verified, and the decoded claims become `req.user`; `authorizeRoles`
 * then lets a request through when one of the user's role names is allowed.
 * Signature verification belongs to the JWT library and is a parameter here.
 */
module Auth {
  import opened Wrappers
  import opened Strings

  /**
   * `req.user`, the claims a verified token decodes to. The cast applied to the decoded
   * payload checks nothing, so the `roles` claim may be missing.
   */
  datatype Principal = Principal(userId: string, roles: Option<seq<string>>)

  /** `req.user?.roles || []`, as the controllers read it. */
  function RolesOrEmpty(u: Principal): seq<string> {
    u.roles.GetOr([])
  }

  /** `roles.includes("ADMIN") || roles.includes("MANAGER")` over `RolesOrEmpty`. */
  predicate IsAdminOrManager(u: Principal) {
    "ADMIN" in RolesOrEmpty(u) || "MANAGER" in RolesOrEmpty(u)
  }

  /** What a middleware does with a request: hand it on, answer it with a status, or throw. */
  datatype Verdict = Next | Respond(status: int) | Thrown

  datatype AuthResult = Authenticated(user: Principal) | Rejected(status: int)

  /**
   * `authHeader && authHeader.split(" ")[1]`, kept only when truthy: the second
   * space-separated field of the header, whatever the first one says.
   */
  function ExtractToken(header: Option<string>): (r: Option<string>)
    ensures header.None? ==> r.None?
    ensures r.Some? ==> r.value != "" && ' ' !in r.value
  {
    match header
    case None => None
    case Some(h) =>
      var fields := Split(h, ' ');
      SplitFieldsAvoidSep(h, ' ');
      if |fields| >= 2 && fields[1] != "" then Some(fields[1]) else None
  }

  /** The scheme word is never looked at: `<anything> <token>` yields the token, with or without more fields. */
  lemma TokenIsSecondField(scheme: string, token: string, rest: string)
    requires ' ' !in scheme && ' ' !in token && token != ""
    ensures ExtractToken(Some(scheme + " " + token)) == Some(token)
    ensures ExtractToken(Some(scheme + " " + token + " " + rest)) == Some(token)
  {
    SplitAtFirst(scheme, token, ' ');
    SplitNoSep(token, ' ');
    SplitAtFirst(scheme, token + " " + rest, ' ');
    SplitAtFirst(token, rest, ' ');
    assert scheme + " " + token + " " + rest == scheme + [' '] + (token + [' '] + rest);
  }

  /** A header without a space (`"Bearer"` alone, or the empty header) carries no token. */
  lemma NoSpaceNoToken(h: string)
    requires ' ' !in h
    ensures ExtractToken(Some(h)) == None
  {
    SplitNoSep(h, ' ');
  }

  /** Two spaces after the scheme make the second field empty, so there is no token. */
  lemma DoubleSpaceNoToken(scheme: string, rest: string)
    requires ' ' !in scheme
    ensures ExtractToken(Some(scheme + "  " + rest)) == None
  {
    SplitAtFirst(scheme, " " + rest, ' ');
    SplitAtFirst("", rest, ' ');
    assert scheme + "  " + rest == scheme + [' '] + (" " + rest);
    assert " " + rest == "" + [' '] + rest;
  }

  /**
   * `authenticateToken`: no token is 401, a token the verifier rejects is 403, and a
   * verified token's claims become the request's user. `verify` stands for `jwt.verify`
   * with the server's secret: `None` when it throws.
   */
  function AuthenticateToken(header: Option<string>, verify: string -> Option<Principal>): (r: AuthResult)
    ensures r == Rejected(401) <==> ExtractToken(header).None?
    ensures r == Rejected(403) <==> ExtractToken(header).Some? && verify(ExtractToken(header).value).None?
    ensures r.Authenticated? ==> ExtractToken(header).Some? && verify(ExtractToken(header).value) == Some(r.user)
  {
    match ExtractToken(header)
    case None => Rejected(401)
    case Some(token) =>
      match verify(token)
      case None => Rejected(403)
      case Some(claims) => Authenticated(claims)
  }

  /** `roles.some(role => allowed.includes(role))`. */
  function AnyAllowed(roles: seq<string>, allowed: seq<string>): (r: bool)
    ensures r <==> exists i :: 0 <= i < |roles| && roles[i] in allowed
    decreases |roles|
  {
    if roles == [] then false
    else if roles[0] in allowed then true
    else
      var r := AnyAllowed(roles[1..], allowed);
      assert r ==> exists i :: 0 <= i < |roles| && roles[i] in allowed by {
        if r {
          var j :| 0 <= j < |roles[1..]| && roles[1..][j] in allowed;
          assert roles[j + 1] in allowed;
        }
      }
      r
  }

  /**
   * `authorizeRoles(...allowed)`: passes exactly when there is a user one of whose role
   * names is, character for character, in `allowed`; otherwise 403. A user whose token
   * carried no `roles` claim makes the `some` call throw.
   */
  function AuthorizeRoles(allowed: seq<string>, user: Option<Principal>): (r: Verdict)
    ensures r == Next <==>
              user.Some? && user.value.roles.Some? && AnyAllowed(user.value.roles.value, allowed)
    ensures r == Thrown <==> user.Some? && user.value.roles.None?
    ensures r != Next && r != Thrown ==> r == Respond(403)
  {
    match user
    case None => Respond(403)
    case Some(u) =>
      match u.roles
      case None => Thrown
      case Some(roles) => if AnyAllowed(roles, allowed) then Next else Respond(403)
  }

  /** A user with an empty role list is refused by every role gate. */
  lemma EmptyRolesRefused(allowed: seq<string>, id: string)
    ensures AuthorizeRoles(allowed, Some(Principal(id, Some([])))) == Respond(403)
  {
  }

  /** Role names are compared exactly: `admin` is not `ADMIN`. */
  lemma RoleNamesAreCaseSensitive(id: string)
    ensures AuthorizeRoles(["ADMIN"], Some(Principal(id, Some(["admin"])))) == Respond(403)
  {
    assert "admin"[0] != "ADMIN"[0];
  }

  /** The two role lists the routers pass to `authorizeRoles`, read as membership tests. */
  lemma AllowedNames(roles: seq<string>)
    ensures AnyAllowed(roles, ["ADMIN", "MANAGER"]) <==> "ADMIN" in roles || "MANAGER" in roles
    ensures AnyAllowed(roles, ["ADMIN"]) <==> "ADMIN" in roles
  {
    if "ADMIN" in roles {
      var i :| 0 <= i < |roles| && roles[i] == "ADMIN";
      assert roles[i] in ["ADMIN"];
    }
    if "MANAGER" in roles {
      var i :| 0 <= i < |roles| && roles[i] == "MANAGER";
      assert roles[i] in ["ADMIN", "MANAGER"];
    }
  }
}
