/**
 * The authentication context: the token and role kept in component state and mirrored in the
 * browser's local storage, the initial load from storage, `login`, `logout`, and the `useAuth`
 * guard.
 */
module AuthContext {
  import opened Wrappers
  import opened Strings

  /** The three roles of the application. */
  datatype Role = Admin | Trainer | Client

  function RoleName(r: Role): string {
    match r
    case Admin => "admin"
    case Trainer => "trainer"
    case Client => "client"
  }

  /** The role a string names exactly, if any. */
  function RoleOf(s: string): (r: Option<Role>)
    ensures r.Some? <==> s == "admin" || s == "trainer" || s == "client"
    ensures r.Some? ==> RoleName(r.value) == s
  {
    if s == "admin" then Some(Admin)
    else if s == "trainer" then Some(Trainer)
    else if s == "client" then Some(Client)
    else None
  }

  /** Reading a role's name gives the role back. */
  lemma RoleNameRoundTrip(r: Role)
    ensures RoleOf(RoleName(r)) == Some(r)
  {
    match r
    case Admin =>
    case Trainer =>
    case Client =>
  }

  const TokenKey: string := "token"
  const RoleKey: string := "role"
  const OutsideProvider: string := "useAuth must be used within AuthProvider"

  /** The browser's local storage. */
  class LocalStorage {
    var items: map<string, string>

    constructor(items: map<string, string>)
      ensures this.items == items
    {
      this.items := items;
    }

    /** `getItem`: the stored value, or null. */
    function GetItem(key: string): (v: Option<string>)
      reads this
      ensures v.Some? <==> key in items
      ensures v.Some? ==> v.value == items[key]
    {
      if key in items then Some(items[key]) else None
    }

    method SetItem(key: string, value: string)
      modifies this
      ensures items == old(items)[key := value]
    {
      items := items[key := value];
    }

    method RemoveItem(key: string)
      modifies this
      ensures items == old(items) - {key}
    {
      items := items - {key};
    }
  }

  /** The token and role the context exposes. */
  datatype Session = Session(token: Option<string>, role: Option<string>)

  /** `login` and `logout` calls. */
  datatype AuthOp = LoginOp(token: string, role: Role) | LogoutOp

  /** The session after one call: each call sets both values, whatever they were. */
  function SessionAfter(op: AuthOp): Session {
    match op
    case LoginOp(t, r) => Session(Some(t), Some(RoleName(r)))
    case LogoutOp => Session(None, None)
  }

  /** The session after a run of calls, from session `s`. */
  function Replay(s: Session, ops: seq<AuthOp>): Session
    decreases |ops|
  {
    if ops == [] then s else Replay(SessionAfter(ops[0]), ops[1..])
  }

  /** After any non-empty run of calls, the session is set by the last call alone. */
  lemma {:induction false} LastCallWins(s: Session, ops: seq<AuthOp>)
    requires ops != []
    ensures Replay(s, ops) == SessionAfter(ops[|ops| - 1])
    decreases |ops|
  {
    if |ops| > 1 {
      LastCallWins(SessionAfter(ops[0]), ops[1..]);
    }
  }

  /** A `logout` after anything leaves no token and no role. */
  lemma LogoutClears(s: Session, ops: seq<AuthOp>)
    ensures Replay(s, ops + [LogoutOp]) == Session(None, None)
  {
    LastCallWins(s, ops + [LogoutOp]);
  }

  /** The value the context provides. */
  datatype ContextValue = ContextValue(token: Option<string>, role: Option<string>, loading: bool)

  /** What `useAuth` does: return the provided value, or throw outside a provider. */
  datatype UseAuthResult = Provided(value: ContextValue) | Thrown(message: string)

  function UseAuth(context: Option<ContextValue>): (r: UseAuthResult)
    ensures r.Thrown? <==> context.None?
    ensures r.Provided? ==> r.value == context.value
  {
    if context.None? then Thrown(OutsideProvider) else Provided(context.value)
  }

  /** `AuthProvider`'s state over the browser's storage. */
  class AuthProvider {
    var token: Option<string>
    var role: Option<string>
    var loading: bool
    const store: LocalStorage

    /** State and storage hold the same token and role. */
    predicate Agree()
      reads this, store
    {
      token == store.GetItem(TokenKey) && role == store.GetItem(RoleKey)
    }

    function Value(): ContextValue
      reads this
    {
      ContextValue(token, role, loading)
    }

    constructor(store: LocalStorage)
      ensures this.store == store && token == None && role == None && loading
    {
      this.store := store;
      token, role, loading := None, None, true;
    }

    /**
     * The initial effect: a non-empty stored token and a non-empty stored role are copied into
     * state as they are (the role is not checked against the three roles); then loading ends.
     */
    method Init()
      modifies this
      ensures token == if Truthy(store.GetItem(TokenKey)) then store.GetItem(TokenKey) else old(token)
      ensures role == if Truthy(store.GetItem(RoleKey)) then store.GetItem(RoleKey) else old(role)
      ensures !loading
      ensures (old(token) == None && old(role) == None
               && store.GetItem(TokenKey) != Some("") && store.GetItem(RoleKey) != Some("")) ==> Agree()
    {
      var savedToken := store.GetItem(TokenKey);
      var savedRole := store.GetItem(RoleKey);
      if Truthy(savedToken) {
        token := savedToken;
      }
      if Truthy(savedRole) {
        role := savedRole;
      }
      loading := false;
    }

    /** `login(t, r)`: both keys are written and both values set; other keys are untouched. */
    method Login(t: string, r: Role)
      modifies this, store
      ensures store.items == old(store.items)[TokenKey := t][RoleKey := RoleName(r)]
      ensures Session(token, role) == SessionAfter(LoginOp(t, r)) && loading == old(loading)
      ensures Agree()
    {
      store.SetItem(TokenKey, t);
      store.SetItem(RoleKey, RoleName(r));
      token := Some(t);
      role := Some(RoleName(r));
    }

    /** `logout()`: both keys are removed and both values cleared; other keys are untouched. */
    method Logout()
      modifies this, store
      ensures store.items == old(store.items) - {TokenKey} - {RoleKey}
      ensures Session(token, role) == SessionAfter(LogoutOp) && loading == old(loading)
      ensures Agree()
    {
      store.RemoveItem(TokenKey);
      store.RemoveItem(RoleKey);
      token := None;
      role := None;
    }

    /**
     * A run of `login`/`logout` calls: the session is the replay of the calls, so the last
     * call decides it, and state and storage agree after any non-empty run.
     */
    method Run(ops: seq<AuthOp>)
      modifies this, store
      ensures Session(token, role) == Replay(old(Session(token, role)), ops)
      ensures ops != [] ==> Agree()
      ensures loading == old(loading)
    {
      var i := 0;
      while i < |ops|
        invariant 0 <= i <= |ops|
        invariant Replay(old(Session(token, role)), ops) == Replay(Session(token, role), ops[i..])
        invariant i > 0 ==> Agree()
        invariant loading == old(loading)
      {
        assert ops[i..][1..] == ops[i + 1..];
        match ops[i] {
          case LoginOp(t, r) => Login(t, r);
          case LogoutOp => Logout();
        }
        i := i + 1;
      }
    }
  }
}
