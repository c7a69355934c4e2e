/** The signed-in session (`AuthContext.jsx`): the user held in memory, its copy in the
    browser's storage under one key, and the hook that hands the context out. */
module AuthContext {
  import opened Wrappers
  import opened Records

  /** The key the session is stored under. */
  const STORAGE_KEY := "hrPortalUser"

  /** What a caller passes to `login`: the fixed admin or HR identity, or an employee record. */
  datatype Account = Account(id: nat, name: string, email: string, profile: Option<EmployeeData>)

  /** An employee record as an account. */
  function EmployeeAccount(e: Employee): Account {
    Account(e.id, e.info.name, e.info.email, Some(e.info))
  }

  /** The account with the role attached to it, as held in memory and in storage. */
  datatype SessionUser = SessionUser(account: Account, role: string)

  /** The browser's persistent key-value storage. The stored text is the JSON of a session
      user, and reading it back gives the same value, so the model keeps the value. */
  class LocalStorage {
    var items: map<string, SessionUser>

    constructor (items: map<string, SessionUser>)
      ensures this.items == items
    {
      this.items := items;
    }
  }

  /** The value the provider hands to its children; `isAuthenticated` is derived from `user`. */
  datatype AuthValue = AuthValue(user: Option<SessionUser>, isLoading: bool)
  {
    predicate IsAuthenticated() {
      user.Some?
    }
  }

  class AuthProvider {
    var user: Option<SessionUser>
    var isLoading: bool
    const storage: LocalStorage

    /** The in-memory user is the one in storage, and there is none when storage has none. */
    predicate Persisted()
      reads this, storage
    {
      user == if STORAGE_KEY in storage.items then Some(storage.items[STORAGE_KEY]) else None
    }

    constructor (storage: LocalStorage)
      ensures user == None && isLoading && this.storage == storage
    {
      user := None;
      isLoading := true;
      this.storage := storage;
    }

    /** The mount effect: take the stored session if there is one, then stop loading. */
    method Restore()
      modifies this`user, this`isLoading
      ensures STORAGE_KEY in storage.items ==> user == Some(storage.items[STORAGE_KEY])
      ensures STORAGE_KEY !in storage.items ==> user == old(user)
      ensures !isLoading
      ensures old(user) == None ==> Persisted()
    {
      if STORAGE_KEY in storage.items {
        user := Some(storage.items[STORAGE_KEY]);
      }
      isLoading := false;
    }

    /** `login`: attach the role, keep the result in memory and store it. */
    method Login(account: Account, role: string)
      modifies this`user, storage
      ensures user == Some(SessionUser(account, role))
      ensures storage.items == old(storage.items)[STORAGE_KEY := SessionUser(account, role)]
      ensures Persisted()
    {
      user := Some(SessionUser(account, role));
      storage.items := storage.items[STORAGE_KEY := SessionUser(account, role)];
    }

    /** `logout`: forget the user in memory and in storage; other keys are kept. */
    method Logout()
      modifies this`user, storage
      ensures user == None
      ensures storage.items == old(storage.items) - {STORAGE_KEY}
      ensures Persisted()
    {
      user := None;
      storage.items := storage.items - {STORAGE_KEY};
    }

    /** The context value. */
    function Value(): (v: AuthValue)
      reads this
      ensures v.IsAuthenticated() <==> user.Some?
    {
      AuthValue(user, isLoading)
    }
  }

  /** A session survives a reload: a provider mounted afterwards on the same storage restores
      exactly the user that signed in, and a session that signed out stays signed out. */
  method ReloadAfterLogin(storage: LocalStorage, account: Account, role: string, signOut: bool)
      returns (before: AuthProvider, after: AuthProvider)
    modifies storage
    ensures !after.isLoading && after.user == before.user
    ensures after.user == if signOut then None else Some(SessionUser(account, role))
  {
    before := new AuthProvider(storage);
    before.Restore();
    before.Login(account, role);
    if signOut {
      before.Logout();
    }
    after := new AuthProvider(storage);
    after.Restore();
  }

  const OUTSIDE_PROVIDER := "useAuth must be used within an AuthProvider"

  /** `useAuth`: the nearest provider's value, or the error thrown when there is none. */
  function UseAuth(context: Option<AuthValue>): (r: Result<AuthValue, string>)
    ensures r.Success? <==> context.Some?
    ensures context.Some? ==> r.value == context.value
    ensures context.None? ==> r.error == OUTSIDE_PROVIDER
  {
    match context
    case None => Failure(OUTSIDE_PROVIDER)
    case Some(v) => Success(v)
  }
}
