/** `ProtectedRoute`: which client routes a visitor may see, and where the others go. */
module RouteGuard {
  import opened Wrappers
  import opened Models
  import Gates

  datatype Decision = RedirectHome | RedirectLogin | Render

  /** The admin check comes first and sends to `/`; a guest on a member route goes to `/login`. */
  function Decide(adminOnly: bool, user: Option<UserDict>): (d: Decision)
    ensures d == RedirectHome <==> adminOnly && (user.None? || !user.value.isAdmin)
    ensures d == RedirectLogin <==> !adminOnly && user.None?
    ensures d == Render <==> (adminOnly && user.Some? && user.value.isAdmin) || (!adminOnly && user.Some?)
  {
    if adminOnly && (user.None? || !user.value.isAdmin) then RedirectHome
    else if !adminOnly && user.None? then RedirectLogin
    else Render
  }

  /** An admin-only route never sends anyone to the login page. */
  lemma AdminRouteNeverAsksLogin(user: Option<UserDict>)
    ensures Decide(true, user) != RedirectLogin
  {
  }

  /**
   * The client guard and the server gates agree on a freshly logged-in user: the session
   * login writes holds the row's id and admin flag, and the client holds its `to_dict`.
   */
  lemma GuardAgreesWithServer(row: UserRow, others: map<string, string>)
    ensures var s := Gates.ServerSession(Some(row.id), Some(row.isAdmin), others);
      && (Decide(true, Some(UserToDict(row))) == Render <==> Gates.AdminRequired(s).Proceed?)
      && (Decide(false, Some(UserToDict(row))) == Render <==> Gates.LoginRequired(s).Proceed?)
  {
  }
}
