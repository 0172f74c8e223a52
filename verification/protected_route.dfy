/**
 * The route guard: while the context is loading it shows the loading indicator; without a
 * token it sends the user to the login page with the current path; with a required role that
 * the user lacks it shows access denied; otherwise it renders the protected page.
 */
module ProtectedRoute {
  import opened Wrappers
  import opened Strings
  import opened AuthContext

  /** What the guard renders. */
  datatype View = Loading | RedirectToLogin(from: string) | AccessDenied(required: Role) | Children

  function Guard(loading: bool, token: Option<string>, role: Option<string>, required: Option<Role>,
                 path: string): (v: View)
    ensures v == Loading <==> loading
    ensures v.RedirectToLogin? <==> !loading && !Truthy(token)
    ensures v.RedirectToLogin? ==> v.from == path
    ensures v == Children <==> !loading && Truthy(token) && (required.None? || role == Some(RoleName(required.value)))
    ensures v.AccessDenied? ==> required == Some(v.required) && role != Some(RoleName(v.required))
    ensures !loading && Truthy(token) && required.Some? && role != Some(RoleName(required.value))
            ==> v == AccessDenied(required.value)
  {
    if loading then Loading
    else if !Truthy(token) then RedirectToLogin(path)
    else if required.Some? && role != Some(RoleName(required.value)) then AccessDenied(required.value)
    else Children
  }

  /** After a run of calls ending in `login(t, r)` with a non-empty token, a page requiring `r` is shown. */
  lemma LoginOpensOwnPages(s: Session, ops: seq<AuthOp>, t: string, r: Role, path: string)
    requires t != ""
    ensures var after := Replay(s, ops + [LoginOp(t, r)]);
            Guard(false, after.token, after.role, Some(r), path) == Children
  {
    LastCallWins(s, ops + [LoginOp(t, r)]);
  }

  /** After a login as `r`, a page requiring a different role is refused. */
  lemma LoginClosesOtherPages(s: Session, ops: seq<AuthOp>, t: string, r: Role, other: Role, path: string)
    requires t != "" && other != r
    ensures var after := Replay(s, ops + [LoginOp(t, r)]);
            Guard(false, after.token, after.role, Some(other), path) == AccessDenied(other)
  {
    LastCallWins(s, ops + [LoginOp(t, r)]);
    RoleNameRoundTrip(r);
    RoleNameRoundTrip(other);
  }

  /**
   * A stored role that names no role (the context restores it unvalidated) opens no page that
   * requires a role: every such page is refused.
   */
  lemma UnknownRoleDenied(token: Option<string>, role: string, required: Role, path: string)
    requires Truthy(token) && RoleOf(role).None?
    ensures Guard(false, token, Some(role), Some(required), path) == AccessDenied(required)
  {
    RoleNameRoundTrip(required);
  }

  /** After a `logout`, every protected page redirects to the login page. */
  lemma LogoutRedirects(s: Session, ops: seq<AuthOp>, required: Option<Role>, path: string)
    ensures var after := Replay(s, ops + [LogoutOp]);
            Guard(false, after.token, after.role, required, path) == RedirectToLogin(path)
  {
    LogoutClears(s, ops);
  }
}
