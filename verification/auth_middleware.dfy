/**
 * `requireRole(allowedRoles)`: the server middleware that reads the bearer token, looks up the
 * user and the user's profile, and either rejects the request with 401, 403 or 500 or records
 * `req.user` and passes the request on. The identity and profile lookups are inputs.
 */
module AuthMiddleware {
  import opened Wrappers
  import opened Strings

  const NoToken: string := "Brak tokena autoryzacyjnego"
  const InvalidToken: string := "Nieprawid\U{142}owy token"
  const NoAccess: string := "Brak dost\U{119}pu"
  const RoleNotAllowed: string := "Brak odpowiednich uprawnie\U{144}"
  const ServerError: string := "B\U{142}\U{105}d serwera"

  /** The signed-in user as the identity service returns it. */
  datatype AuthUser = AuthUser(id: string, email: Option<string>)

  /** The identity lookup for a token: its user (possibly null), an error, or an exception. */
  datatype IdentityAnswer = IdentityFound(user: Option<AuthUser>) | IdentityError | IdentityThrows

  /** The profile lookup for the user: its role (possibly null), an error, no row, or an exception. */
  datatype ProfileAnswer = ProfileFound(role: Option<string>) | ProfileError | ProfileMissing | ProfileThrows

  /** `req.user` as the middleware records it. */
  datatype RequestUser = RequestUser(id: string, email: Option<string>, role: string)

  /** The middleware's verdict: an error response, or the user with which the request goes on. */
  datatype Outcome = Reject(status: nat, error: string) | Pass(user: RequestUser)

  /** `authorization?.split(' ')[1]`: the second space-separated piece of the header, if any. */
  function TokenOf(header: Option<string>): Option<string> {
    if header.None? then None
    else
      var parts := Split(header.value, ' ');
      if |parts| < 2 then None else Some(parts[1])
  }

  /** Any one-word scheme followed by a space and a one-word token yields that token. */
  lemma TokenAfterScheme(scheme: string, token: string)
    requires ' ' !in scheme && ' ' !in token
    ensures TokenOf(Some(scheme + " " + token)) == Some(token)
  {
    SplitOfCons(scheme, ' ', token);
    SplitOfPlain(token, ' ');
  }

  /** A header with no space carries no token. */
  lemma NoSpaceNoToken(header: string)
    requires ' ' !in header
    ensures TokenOf(Some(header)) == None
  {
    SplitOfPlain(header, ' ');
  }

  /**
   * The decision chain: no token is a 401; an identity error or no user is a 401; no profile is
   * a 403; a role outside the allowed ones is a 403; an exception is a 500; otherwise the
   * request passes with the user's id, e-mail and profile role.
   */
  function Decide(allowed: seq<string>, header: Option<string>, identity: IdentityAnswer,
                  profile: ProfileAnswer): (r: Outcome)
    ensures r.Pass? <==> Truthy(TokenOf(header)) && identity.IdentityFound? && identity.user.Some?
                         && profile.ProfileFound? && profile.role.Some? && profile.role.value in allowed
    ensures r.Pass? ==> r.user == RequestUser(identity.user.value.id, identity.user.value.email, profile.role.value)
    ensures !Truthy(TokenOf(header)) ==> r == Reject(401, NoToken)
    ensures r.Reject? ==> r.status == 401 || r.status == 403 || r.status == 500
    ensures r.Reject? && r.status == 401 ==>
              !Truthy(TokenOf(header)) || identity.IdentityError? || identity == IdentityFound(None)
    ensures Truthy(TokenOf(header)) && (identity.IdentityError? || identity == IdentityFound(None)) ==>
              r == Reject(401, InvalidToken)
    ensures Truthy(TokenOf(header)) && identity == IdentityThrows ==> r == Reject(500, ServerError)
    ensures (Truthy(TokenOf(header)) && identity.IdentityFound? && identity.user.Some?
             && profile == ProfileThrows) ==> r == Reject(500, ServerError)
    ensures (Truthy(TokenOf(header)) && identity.IdentityFound? && identity.user.Some?
             && (profile == ProfileError || profile == ProfileMissing)) ==> r == Reject(403, NoAccess)
    ensures (Truthy(TokenOf(header)) && identity.IdentityFound? && identity.user.Some?
             && profile.ProfileFound? && (profile.role.None? || profile.role.value !in allowed)) ==>
              r == Reject(403, RoleNotAllowed)
  {
    var token := TokenOf(header);
    if !Truthy(token) then Reject(401, NoToken)
    else match identity
      case IdentityThrows => Reject(500, ServerError)
      case IdentityError => Reject(401, InvalidToken)
      case IdentityFound(None) => Reject(401, InvalidToken)
      case IdentityFound(Some(user)) =>
        match profile
        case ProfileThrows => Reject(500, ServerError)
        case ProfileError => Reject(403, NoAccess)
        case ProfileMissing => Reject(403, NoAccess)
        case ProfileFound(role) =>
          if role.None? || role.value !in allowed then Reject(403, RoleNotAllowed)
          else Pass(RequestUser(user.id, user.email, role.value))
  }

  /** The scheme word of the header is never checked: any one-word scheme is as good as `Bearer`. */
  lemma SchemeNotChecked(allowed: seq<string>, scheme: string, token: string,
                         identity: IdentityAnswer, profile: ProfileAnswer)
    requires ' ' !in scheme && ' ' !in token
    ensures Decide(allowed, Some(scheme + " " + token), identity, profile)
            == Decide(allowed, Some("Bearer " + token), identity, profile)
  {
    TokenAfterScheme(scheme, token);
    assert ' ' !in "Bearer" && "Bearer" + " " + token == "Bearer " + token;
    TokenAfterScheme("Bearer", token);
  }

  /** One request and its response as the middleware sees them. */
  class Exchange {
    /** `req.user`. */
    var user: Option<RequestUser>
    /** The status and error of the response sent, if any. */
    var response: Option<(nat, string)>
    /** How often `next()` was called. */
    var nextCalls: nat

    constructor()
      ensures user == None && response == None && nextCalls == 0
    {
      user, response, nextCalls := None, None, 0;
    }

    /**
     * Runs the middleware on the request: on a rejection the error response is sent and `next`
     * is not called; otherwise `req.user` is set and `next` is called exactly once.
     */
    method RequireRole(allowed: seq<string>, header: Option<string>, identity: IdentityAnswer,
                       profile: ProfileAnswer)
      modifies this
      ensures var o := Decide(allowed, header, identity, profile);
              (o.Pass? ==> user == Some(o.user) && nextCalls == old(nextCalls) + 1 && response == old(response))
              && (o.Reject? ==> response == Some((o.status, o.error)) && nextCalls == old(nextCalls) && user == old(user))
    {
      var token := TokenOf(header);
      if !Truthy(token) {
        response := Some((401, NoToken));
        return;
      }
      if identity.IdentityThrows? {
        response := Some((500, ServerError));
        return;
      }
      if identity.IdentityError? || identity.user.None? {
        response := Some((401, InvalidToken));
        return;
      }
      if profile.ProfileThrows? {
        response := Some((500, ServerError));
        return;
      }
      if !profile.ProfileFound? {
        response := Some((403, NoAccess));
        return;
      }
      if profile.role.None? || profile.role.value !in allowed {
        response := Some((403, RoleNotAllowed));
        return;
      }
      var u := identity.user.value;
      user := Some(RequestUser(u.id, u.email, profile.role.value));
      nextCalls := nextCalls + 1;
    }
  }
}
