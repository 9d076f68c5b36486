/** The server session and the two route decorators that guard handlers with it. */
module Gates {
  import opened Wrappers

  /**
   * The signed server-side session: `user_id` and `is_admin` as written by login,
   * plus whatever other keys (the anti-forgery token, for one) it holds.
   */
  datatype ServerSession = ServerSession(userId: Option<int>, isAdmin: Option<bool>, others: map<string, string>)

  const EmptySession := ServerSession(None, None, map[])

  /** A decorator either lets the handler run or answers with a status of its own. */
  datatype Gate = Proceed | Deny(status: int)

  /** `session.get('is_admin')` is truthy. */
  predicate AdminFlag(s: ServerSession) {
    s.isAdmin == Some(true)
  }

  /** `api_login_required`: no `user_id` key means 401. */
  function LoginRequired(s: ServerSession): (g: Gate)
    ensures g.Proceed? <==> s.userId.Some?
    ensures g.Deny? ==> g.status == 401
  {
    if s.userId.None? then Deny(401) else Proceed
  }

  /** `admin_required`: the login check runs first, then the admin flag is checked. */
  function AdminRequired(s: ServerSession): (g: Gate)
    ensures g.Proceed? <==> s.userId.Some? && AdminFlag(s)
    ensures g == Deny(401) <==> s.userId.None?
    ensures g == Deny(403) <==> s.userId.Some? && !AdminFlag(s)
  {
    match LoginRequired(s)
    case Deny(status) => Deny(status)
    case Proceed => if !AdminFlag(s) then Deny(403) else Proceed
  }

  /** The response of a guarded route: the handler's own response only when the gate lets it run. */
  function Guarded<R>(g: Gate, handler: R, deny: int -> R): (r: R)
    ensures g.Proceed? ==> r == handler
    ensures g.Deny? ==> r == deny(g.status)
  {
    match g
    case Proceed => handler
    case Deny(status) => deny(status)
  }

  /** A denied request's response does not depend on the handler at all: the handler never runs. */
  lemma DeniedHandlerIrrelevant<R>(s: ServerSession, admin: bool, h1: R, h2: R, deny: int -> R)
    requires if admin then !AdminRequired(s).Proceed? else !LoginRequired(s).Proceed?
    ensures var g := if admin then AdminRequired(s) else LoginRequired(s);
            Guarded(g, h1, deny) == Guarded(g, h2, deny)
  {
  }
}
