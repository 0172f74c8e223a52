/**
 * The login form: the redirect of a user who is already signed in, the re-entry guard of the
 * submit handler, the choice of the access token and of the role among the fields the login
 * answer may carry, the `/me` fallback for the role, and the redirect after login.
 */
module LoginForm {
  import opened Wrappers
  import opened Strings
  import opened AuthContext

  const LoginFailed: string := "Logowanie nieudane"
  const NoAccessToken: string := "Brak access_token w odpowiedzi logowania"
  const ServerError: string := "B\U{142}\U{105}d po\U{142}\U{105}czenia z serwerem"

  /** `roleToPath`. */
  function RolePath(r: Role): string {
    match r
    case Admin => "/admin"
    case Trainer => "/trainer"
    case Client => "/client"
  }

  /**
   * The effect for a user already signed in: with a token and a role it navigates to the role's
   * page. The stored role is not checked, so an unknown one navigates to an undefined path
   * (`Some(None)`).
   */
  function AutoRedirect(token: Option<string>, role: Option<string>): (r: Option<Option<string>>)
    ensures r.Some? <==> Truthy(token) && Truthy(role)
    ensures r.Some? && RoleOf(role.value).Some? ==> r.value == Some(RolePath(RoleOf(role.value).value))
    ensures r.Some? && RoleOf(role.value).None? ==> r.value == None
  {
    if !Truthy(token) || !Truthy(role) then None
    else match RoleOf(role.value)
      case Some(known) => Some(Some(RolePath(known)))
      case None => Some(None)
  }

  /** Once `login(t, r)` has run with a non-empty token, the form sends the user to `r`'s page. */
  lemma SignedInGoesHome(s: Session, ops: seq<AuthOp>, t: string, r: Role)
    requires t != ""
    ensures var after := Replay(s, ops + [LoginOp(t, r)]);
            AutoRedirect(after.token, after.role) == Some(Some(RolePath(r)))
  {
    LastCallWins(s, ops + [LoginOp(t, r)]);
    RoleNameRoundTrip(r);
  }

  /** `a || b || …`: the first non-empty value of the list, if any. */
  function FirstTruthy(vs: seq<Option<string>>): (r: Option<string>)
    ensures r.None? <==> forall i :: 0 <= i < |vs| ==> !Truthy(vs[i])
    ensures r.Some? ==> Truthy(r)
  {
    if vs == [] then None
    else if Truthy(vs[0]) then vs[0]
    else
      var r := FirstTruthy(vs[1..]);
      assert forall i :: 1 <= i < |vs| ==> vs[i] == vs[1..][i - 1];
      r
  }

  /** The value chosen is the first non-empty one: every earlier value is empty or absent. */
  lemma {:induction false} FirstTruthyIsFirst(vs: seq<Option<string>>, i: nat)
    requires i < |vs| && Truthy(vs[i])
    requires forall j :: 0 <= j < i ==> !Truthy(vs[j])
    ensures FirstTruthy(vs) == vs[i]
  {
    if i > 0 {
      assert !Truthy(vs[0]);
      FirstTruthyIsFirst(vs[1..], i - 1);
    }
  }

  /** The fields of a successful login answer that may carry the token or the role. */
  datatype LoginData = LoginData(
    token: Option<string>,
    accessToken: Option<string>,
    sessionAccessToken: Option<string>,
    role: Option<string>,
    sessionUserMetadataRole: Option<string>,
    userMetadataRole: Option<string>,
    userRole: Option<string>)

  /** `data.token || data.access_token || data.session?.access_token`. */
  function AccessToken(d: LoginData): Option<string> {
    FirstTruthy([d.token, d.accessToken, d.sessionAccessToken])
  }

  /** `data.role || session user metadata role || user metadata role || data.user?.role`. */
  function RawRole(d: LoginData): Option<string> {
    FirstTruthy([d.role, d.sessionUserMetadataRole, d.userMetadataRole, d.userRole])
  }

  /** The access token comes from `token`, else `access_token`, else the session's token. */
  lemma AccessTokenPrecedence(d: LoginData)
    ensures Truthy(d.token) ==> AccessToken(d) == d.token
    ensures !Truthy(d.token) && Truthy(d.accessToken) ==> AccessToken(d) == d.accessToken
    ensures !Truthy(d.token) && !Truthy(d.accessToken) && Truthy(d.sessionAccessToken) ==>
              AccessToken(d) == d.sessionAccessToken
    ensures AccessToken(d).None? <==> !Truthy(d.token) && !Truthy(d.accessToken) && !Truthy(d.sessionAccessToken)
  {
    var vs := [d.token, d.accessToken, d.sessionAccessToken];
    if Truthy(d.token) {
      FirstTruthyIsFirst(vs, 0);
    } else if Truthy(d.accessToken) {
      FirstTruthyIsFirst(vs, 1);
    } else if Truthy(d.sessionAccessToken) {
      FirstTruthyIsFirst(vs, 2);
    }
  }

  /** The raw role comes from `role`, else the session user's metadata, else the user's metadata, else `user.role`. */
  lemma RawRolePrecedence(d: LoginData)
    ensures Truthy(d.role) ==> RawRole(d) == d.role
    ensures !Truthy(d.role) && Truthy(d.sessionUserMetadataRole) ==> RawRole(d) == d.sessionUserMetadataRole
    ensures !Truthy(d.role) && !Truthy(d.sessionUserMetadataRole) && Truthy(d.userMetadataRole) ==>
              RawRole(d) == d.userMetadataRole
    ensures (!Truthy(d.role) && !Truthy(d.sessionUserMetadataRole) && !Truthy(d.userMetadataRole)
             && Truthy(d.userRole)) ==> RawRole(d) == d.userRole
  {
    var vs := [d.role, d.sessionUserMetadataRole, d.userMetadataRole, d.userRole];
    if Truthy(d.role) {
      FirstTruthyIsFirst(vs, 0);
    } else if Truthy(d.sessionUserMetadataRole) {
      FirstTruthyIsFirst(vs, 1);
    } else if Truthy(d.userMetadataRole) {
      FirstTruthyIsFirst(vs, 2);
    } else if Truthy(d.userRole) {
      FirstTruthyIsFirst(vs, 3);
    }
  }

  /** The answer of the `/me` request. */
  datatype MeAnswer = MeOk(role: Option<string>) | MeNotOk | MeUnreachable

  /**
   * The role of the signed-in user: the raw role when its lower-case form is one of the three;
   * otherwise the `/me` answer's role when recognised, else `client`. `None` when the `/me`
   * request fails with an exception.
   */
  function ResolveRole(raw: Option<string>, me: MeAnswer): (r: Option<Role>)
    ensures raw.Some? && RoleOf(LowerAscii(raw.value)).Some? ==> r == RoleOf(LowerAscii(raw.value))
    ensures r.None? <==> (raw.None? || RoleOf(LowerAscii(raw.value)).None?) && me == MeUnreachable
    ensures (raw.None? || RoleOf(LowerAscii(raw.value)).None?) && r.Some? && r.value != Client ==>
              me.MeOk? && Truthy(me.role) && RoleOf(LowerAscii(me.role.value)) == r
    ensures ((raw.None? || RoleOf(LowerAscii(raw.value)).None?) && me.MeOk? && Truthy(me.role)
             && RoleOf(LowerAscii(me.role.value)).Some?) ==> r == RoleOf(LowerAscii(me.role.value))
    ensures ((raw.None? || RoleOf(LowerAscii(raw.value)).None?) && me != MeUnreachable
             && !(me.MeOk? && Truthy(me.role) && RoleOf(LowerAscii(me.role.value)).Some?)) ==> r == Some(Client)
  {
    if raw.Some? && RoleOf(LowerAscii(raw.value)).Some? then RoleOf(LowerAscii(raw.value))
    else match me
      case MeUnreachable => None
      case MeNotOk => Some(Client)
      case MeOk(role) =>
        if !Truthy(role) then Some(Client)
        else Some(RoleOf(LowerAscii(role.value)).GetOr(Client))
  }

  /** The answer of the login request. */
  datatype LoginAnswer = LoginOk(data: LoginData) | LoginRefused(error: Option<string>) | LoginUnreachable

  /** The form's state. */
  class LoginFormState {
    var submitting: bool
    var message: string

    constructor()
      ensures !submitting && message == ""
    {
      submitting, message := false, "";
    }

    /** The start of `handleLogin`: a submit during another one does nothing. */
    method Begin() returns (started: bool)
      modifies this
      ensures started == !old(submitting)
      ensures !started ==> unchanged(this)
      ensures started ==> submitting && message == ""
    {
      if submitting {
        return false;
      }
      submitting := true;
      message := "";
      started := true;
    }

    /**
     * The rest of `handleLogin`, once the answers are in: a refused login or a missing token
     * sets the message and never logs in; otherwise `login` is called with the token and the
     * resolved role, and the form navigates to `from` when given, else to the role's page.
     * `submitting` is reset on every path.
     */
    method Complete(auth: AuthProvider, from: Option<string>, answer: LoginAnswer, me: MeAnswer)
      returns (loggedIn: Option<(string, Role)>, navigateTo: Option<string>)
      requires submitting
      modifies this, auth, auth.store
      ensures !submitting
      ensures answer.LoginRefused? ==>
                message == (if Truthy(answer.error) then answer.error.value else LoginFailed)
      ensures answer == LoginUnreachable ==> message == ServerError
      ensures answer.LoginOk? && AccessToken(answer.data).None? ==> message == NoAccessToken
      ensures answer.LoginOk? && AccessToken(answer.data).Some? && ResolveRole(RawRole(answer.data), me).None? ==>
                message == ServerError
      ensures loggedIn.Some? <==> answer.LoginOk? && AccessToken(answer.data).Some?
                                  && ResolveRole(RawRole(answer.data), me).Some?
      ensures loggedIn.Some? ==>
                loggedIn.value == (AccessToken(answer.data).value, ResolveRole(RawRole(answer.data), me).value)
                && auth.token == Some(loggedIn.value.0) && auth.role == Some(RoleName(loggedIn.value.1))
                && auth.Agree() && message == old(message)
                && navigateTo == Some(if Truthy(from) then from.value else RolePath(loggedIn.value.1))
      ensures loggedIn.None? ==> navigateTo.None? && unchanged(auth) && unchanged(auth.store)
    {
      loggedIn, navigateTo := None, None;
      match answer {
        case LoginUnreachable =>
          message := ServerError;
        case LoginRefused(error) =>
          message := if Truthy(error) then error.value else LoginFailed;
        case LoginOk(data) =>
          var accessToken := AccessToken(data);
          if accessToken.None? {
            message := NoAccessToken;
          } else {
            var resolved := ResolveRole(RawRole(data), me);
            if resolved.None? {
              message := ServerError;
            } else {
              auth.Login(accessToken.value, resolved.value);
              loggedIn := Some((accessToken.value, resolved.value));
              navigateTo := Some(if Truthy(from) then from.value else RolePath(resolved.value));
            }
          }
      }
      submitting := false;
    }
  }
}
