/**
 * The client's auth store: the user restored from local storage, the effect that keeps
 * storage in sync with it, `login` and the fail-open `logout`.
 */
module AuthStore {
  import opened Wrappers
  import opened Models

  /** The `user` key of local storage. */
  datatype Storage = Missing | Unparseable | Saved(user: UserDict)

  datatype Auth = Auth(user: Option<UserDict>, storage: Storage)

  /** The lazy initial state: the stored user, or none when absent or unparseable. */
  function Restore(s: Storage): (u: Option<UserDict>)
    ensures u.Some? <==> s.Saved?
    ensures s.Saved? ==> u.value == s.user
  {
    match s
    case Saved(user) => Some(user)
    case _ => None
  }

  /** The synchronising effect: a user is written, no user removes the key. */
  function Sync(u: Option<UserDict>): (s: Storage)
    ensures u.Some? <==> s.Saved?
    ensures s.Saved? ==> s.user == u.value
  {
    match u
    case Some(user) => Saved(user)
    case None => Missing
  }

  /** Storage always mirrors the user once the effect has run. */
  predicate InSync(a: Auth) {
    a.storage == Sync(a.user)
  }

  /** The provider after its first render and effect. */
  function Mount(s: Storage): (a: Auth)
    ensures InSync(a)
    ensures a.user == Restore(s)
  {
    var u := Restore(s);
    Auth(u, Sync(u))
  }

  /** `login(userData)`: the user becomes exactly `userData`. */
  function Login(a: Auth, userData: Option<UserDict>): (r: Auth)
    ensures r.user == userData
    ensures InSync(r)
  {
    Auth(userData, Sync(userData))
  }

  /** How the `POST /api/logout` call went. */
  datatype ServerLogout = Ok | NotOk | Threw

  /** How the promise returned by `logout` settles. */
  datatype Settled = Fulfilled | Rejected

  datatype LogoutResult = LogoutResult(auth: Auth, settled: Settled, errorLogged: bool)

  /**
   * `logout`: a non-ok answer is turned into a thrown error, every error is caught and
   * logged, and the `finally` clears the user in every case.
   */
  function Logout(a: Auth, server: ServerLogout): (r: LogoutResult)
    ensures r.auth.user.None?
    ensures r.auth.storage == Missing
    ensures r.settled == Fulfilled
    ensures r.errorLogged <==> server != Ok
  {
    var thrown := server != Ok;
    LogoutResult(Auth(None, Sync(None)), Fulfilled, thrown)
  }

  /** Reloading the page restores exactly the user the store held. */
  lemma ReloadRestoresUser(a: Auth)
    requires InSync(a)
    ensures Mount(a.storage) == a
  {
  }

  /** After a logout a reload comes back logged out, whatever the server said. */
  lemma LogoutSurvivesReload(a: Auth, server: ServerLogout)
    ensures Mount(Logout(a, server).auth.storage).user.None?
  {
  }
}
